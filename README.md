# Blind-map country quiz — Dafny model

This project models the decision logic of a small Dash web app. The app is a
country-guessing quiz on a blind map. The player picks a continent ("Alle"
for all of them). The app marks one country red, and the player names it in
German from a dropdown.

The app has three screens: welcome, continent choice and quiz. Dash stores
hold the current screen, the chosen continent and the target country's German
name. Every callback reads store and widget values and returns new ones, so
each callback is modelled as a pure Dafny function:

- `countries.dfy` (module `Countries`) holds the catalog of `countries_data.py`.
  It has 92 rows of continent, German name and English name, kept as the
  constant `CATALOG`. Lemmas cover its continents, names and name
  distinctness.
- `guess.dfy` (module `Guess`) holds the callbacks of `guess.py` over any
  catalog `seq<Row>`:
  - screen switching and navigation;
  - the continent store;
  - the quiz step, which covers the continent filter, the guess dropdown,
    drawing or keeping the target, and judging a guess;
  - the colouring and scope part of the map update.
- `catalog_facts.dfy` (module `CatalogFacts`) applies the general lemmas to
  the real catalog. On it, an offered continent never triggers the
  empty-filter fallback. The quiz draws only from the chosen continent. Each
  name picks out one row, so the map colours exactly one country red.

Modelling choices:

- Python truthiness of a store value is `Falsy(o)`: `None` or `""`.
- The component that fired a callback (`ctx.triggered[0]["prop_id"]` up to the
  first dot) is the enum `Trigger`. `None` stands for an empty `ctx.triggered`.
- `random.choice(names)` is `Choice(names, pick)`, which returns
  `names[pick % |names|]`. The draw is an argument, so every element is
  reachable (`ChoiceReachesEveryName`). An empty list raises `IndexError`;
  the function gives `None` there, and the quiz step gives `EmptyChoiceError`.
- A pandas boolean mask is `Filter`, which keeps the passing rows in their
  order.
- The `update_map` result is a `MapFigure`. It is either the start
  placeholder or the shown rows, each tagged `Selected`/`NonSelected`, with
  the map scope and the continent shown in the title.

`guess.py` keeps no pool of countries not yet asked, no list of finished
ones, no score and no timer. After a correct guess it draws again from the
whole filtered list, which may repeat the country just guessed. After a
wrong guess it keeps the target.

## Model

| member | source | states |
|---|---|---|
| Guess.SwitchScreens | guess.py:125-139 | exactly one of the three screens is shown: welcome iff the store holds 1, continent choice iff 2, quiz for every other value |
| Guess.NavigateScreens | guess.py:152-167 | "btn-to-screen-2" and "btn-back-to-screen-2" lead to 2, "btn-to-screen-3" to 3; nothing fired or any other trigger keeps the current screen |
| Guess.NavigationStaysOnScreens | guess.py:152-167 | from a screen in {1,2,3} navigation stays in {1,2,3}; the start button shows the quiz and the back button the continent choice |
| Guess.SetContinent | guess.py:177-180 | a `None` dropdown value keeps the stored continent, any other value replaces it |
| Guess.SetContinentIdempotent | guess.py:177-180 | applying the same dropdown value twice stores what applying it once does |
| Guess.Falsy | guess.py:211 | Python's truthiness test on a store value (also at lines 225, 235, 255 and 263): falsy exactly for `None` and the empty string |
| Guess.Filter | guess.py:214 | the mask keeps exactly the elements that pass, and keeps them in their original order (a subsequence) |
| Guess.FilterKeepsEveryCopy | guess.py:214 | the mask keeps every copy of a passing element and none of the others, so with the subsequence property its result is fixed |
| Guess.OnContinent | guess.py:214 | `df[df["continent"] == c]`: every row it returns is tagged c |
| Guess.OnContinentRows | guess.py:214 | the continent mask returns exactly the rows tagged c, each as often as in the catalog, in catalog order |
| Guess.QuizRows | guess.py:211-216 | falsy or "Alle" plays the whole catalog; a continent that has rows plays exactly its rows in catalog order; a continent without rows falls back to the whole catalog; never empty for a non-empty catalog; always a subsequence of the catalog |
| Guess.DeNames | guess.py:226 | `sub_df["country_de"].tolist()`: one German name per row, in row order |
| Guess.DropdownOptions | guess.py:219-222 | one option per playable row, in order, labelled and valued with that row's German name |
| Guess.Choice | guess.py:226 | a draw exists iff the list is non-empty, and is then an element of the list |
| Guess.ChoiceReachesEveryName | guess.py:226 | every element of the list is the outcome of some draw |
| Guess.ManageCountryAndMessage | guess.py:196-244 | nothing fired or a screen other than 3 gives no options, no target and no message; the IndexError of the draw happens only on an empty catalog; a target is only produced on screen 3 |
| Guess.LeavingQuizClearsTarget | guess.py:201-208 | after the back button the screen is 2, and the quiz step then clears options, target and message whatever else holds |
| Guess.QuizOptionsAndTarget | guess.py:219-244 | on screen 3 the option values are the playable rows' German names in order, each label equal to its value; a freshly drawn target is one of those values; a held target survives unless a correct guess replaces it |
| Guess.GuessOutcomes | guess.py:229-244 | on the guess button: a missing guess (or empty target) gives "Bitte zuerst ein Land auswählen!" and keeps the target; a wrong guess gives "Falsch! Richtig war: " followed by the target and keeps it; a correct guess gives "Richtig! Neues Land wurde geladen." and a new target drawn among the playable names |
| Guess.OtherTriggerKeepsTarget | guess.py:225-244 | on screen 3 a trigger other than the guess button, for any continent choice, gives the playable rows' options and an empty message; a held target is kept, and with none held the target is drawn among the playable names |
| Guess.EnterQuizOnContinent | guess.py:211-231 | entering the quiz with a continent that has rows and no held target offers that continent's names, draws the target among them and shows no message |
| Guess.GuessOnContinent | guess.py:211-244 | guessing with a continent that has rows: its names are the options; a wrong guess keeps the target and names it; a right one draws the next target from that continent |
| Guess.Scope | guess.py:264 | a continent listed in the scope map gets its entry, anything else gets "world" |
| Guess.WorldScopes | guess.py:22-30 | the scope map entries: "Alle" and "Austrálie/Oceánie" map to "world", the other five continents to their own scope; exactly those five get a scope other than "world" |
| Guess.LookupEn | guess.py:266-267 | no result iff no row has the German name; otherwise the English name of the first row that has it |
| Guess.ColourRows | guess.py:269-272 | one map row per catalog row, in order, coloured "selected" iff its English name equals the looked-up one |
| Guess.UpdateMap | guess.py:254-279 | the placeholder iff the target is falsy; otherwise the title continent is the chosen one, or "Alle" when it is falsy, and the scope is that continent's scope |
| Guess.UncolouredFilter | guess.py:274-279 | filtering the coloured rows by continent and stripping the colours gives the same rows as filtering the plain rows |
| Guess.MapShowsQuizRows | guess.py:211-279 | the map shows exactly the rows the quiz plays, in the same order, fallback included |
| Guess.MapColouring | guess.py:266-272 | a shown row is "selected" iff its English name is that of the first row carrying the target's German name, otherwise "non-selected" |
| Guess.LookupFindsRow | guess.py:266-267 | with distinct German names, looking up a row's German name returns that row's English name |
| Guess.MapHighlightsTargetRow | guess.py:266-279 | with distinct names, a shown row is "selected" iff it is the target's row |
| Guess.SubsequenceKeepsDistinct | guess.py:277 | a subsequence of a list without repeated rows has no repeated rows and takes its rows from the list |
| Guess.UncolouredCons | guess.py:269-272 | stripping the colours of a list with a row in front gives that row in front of the stripped rest |
| Guess.QuizRowsDistinct | guess.py:211-216 | with distinct German names the quiz plays no row twice |
| Guess.OnePaintedRow | guess.py:269-279 | over map rows with no repeated row, where exactly the target's rows are selected and the target is shown, exactly one position is selected and it holds the target |
| Guess.MapPaintsOneRow | guess.py:266-279 | with distinct names and a target row the quiz plays, exactly one shown row is "selected", and it is the target's row |
| Countries.EntryContinents | countries_data.py:3-104 | every row's continent is the one of its block, and one of Afrika, Asien, Europa, Nordamerika, Südamerika, Austrálie/Oceánie |
| Countries.EntryNamesNonEmpty | countries_data.py:3-104 | every row has a non-empty German and English name |
| Countries.DeNamesDistinct | countries_data.py:3-104 | no two rows share a German name |
| Countries.EnNamesDistinct | countries_data.py:3-104 | no two rows share an English name |
| CatalogFacts.OnContinentSlice | guess.py:214 | a continent tag that holds exactly on positions lo..hi selects exactly that slice |
| CatalogFacts.BlockOf | countries_data.py:3-104 | each continent's rows are its contiguous block of the catalog |
| CatalogFacts.ContinentCounts | countries_data.py:3-104 | 92 rows: Afrika 15, Asien 16, Europa 46, Nordamerika 5, Südamerika 8, Austrálie/Oceánie 2 |
| CatalogFacts.CatalogContinentTags | countries_data.py:3-104 | the catalog uses exactly the six continent tags |
| CatalogFacts.NoFallbackForOfferedChoices | guess.py:72-216 | for "Alle" or any continent the dropdown offers, the quiz plays the whole catalog or exactly that continent's rows, never an empty list, and never by the fallback |
| CatalogFacts.ScopesOfContinents | guess.py:22-30 | every continent of the catalog is a key of the scope map, and only Austrálie/Oceánie among them is shown on the world map |
| CatalogFacts.CatalogNamesNonEmpty | countries_data.py:3-104 | every catalog row has non-empty German and English names |
| CatalogFacts.CatalogNamesDistinct | countries_data.py:3-104 | the catalog's German names are pairwise distinct, and so are its English names |
| CatalogFacts.CatalogLookups | guess.py:266-267 | looking up a catalog row's German name returns its own English name, and no other row has that German name |
| CatalogFacts.MapPaintsOneCountry | guess.py:266-279 | on the real catalog, a target the quiz plays makes exactly one shown country "selected": the target's own row |
| CatalogFacts.EnteringQuizDrawsFromContinent | guess.py:160-231 | pressing "Spiel starten" with an offered continent draws the target among that continent's German names and shows no message |
| CatalogFacts.ContinentNameNonEmpty | countries_data.py:3-104 | every German name of a continent's rows is non-empty, so the "choose first" branch never fires for a drawn target |
| CatalogFacts.GuessingOnContinent | guess.py:229-244 | on the real catalog with an offered continent: a wrong guess keeps the target and names it; a right one loads a new target from the same continent, possibly the same country |

## Left out

- The page layout and the inline styles of the three screens and of the widgets (guess.py:41-114, 126-132). Only which screen is visible is modelled.
- The continent dropdown's option list (guess.py:72-73) is not built. The model uses the set of continents it offers (`CatalogFacts.ContinentTags`) but not its sorted order.
- The Flask and Dash server set-up and start (guess.py:35-36, 298-300): this is I/O.
- The Plotly figures (guess.py:256-260, 281-292): the placeholder's title, the colour map and the rendering are foreign library calls. The model keeps the shown rows, their colour labels, the scope and the title continent.
- Pandas internals (data frames, `iterrows`, `.copy()`) are replaced by sequences and `Filter`.
- Choice: the draw is an index argument, so nothing is stated about its distribution (uniformity) or about which country a given draw picks.
- Splitting the `prop_id` string of `callback_context` is not modelled; the trigger is given as the enum `Trigger`.
- Dash propagates store values between callbacks and decides when each callback fires. That is framework behaviour and is not modelled. Each callback is one function application.
- SwitchScreens, NavigateScreens: the screen store is an `int`. A store holding something that is not a number cannot be represented.
- ManageCountryAndMessage: the guess dropdown's and the stores' values are `Option<string>`. Dash can deliver other JSON values; only strings and `None` are represented.
- Row: the continent is plain text, as in the source, not an enum. Every function therefore also covers continents the catalog does not use.
- A pool of countries not yet asked, a list of finished ones, scores and a timer are not modelled: `guess.py` has none of them.

/** The decision logic of the quiz app's callbacks (guess.py).
    Each callback of the app reads the current values of the stores and of the
    widgets and returns new ones; nothing is updated in place. Each is modelled
    as a pure function over a catalog of rows, with the callback's trigger as
    an explicit value and the random draw as an index argument. */
module Guess {
  import opened Countries

  datatype Option<T> = None | Some(value: T)

  /** Python truthiness of an optional string: None and "" are falsy. */
  predicate Falsy(o: Option<string>): (b: bool)
    ensures b <==> o.None? || |o.value| == 0
  {
    o.None? || o.value == ""
  }

  /** The component whose property fired a callback (the id part of
      `callback_context.triggered[0]["prop_id"]`). */
  datatype Trigger =
    | ToScreen2Button      // "btn-to-screen-2"
    | ToScreen3Button      // "btn-to-screen-3"
    | BackToScreen2Button  // "btn-back-to-screen-2"
    | ScreenStore          // "store-current-screen"
    | GuessButton          // "guess-button"
    | OtherInput           // any other component

  /* ---------------------------------------------------------------------- */
  /* Screens                                                                 */
  /* ---------------------------------------------------------------------- */

  datatype Display = Shown | Hidden

  /** Which of the three screen containers is displayed: welcome (1),
      continent choice (2) and quiz (3). */
  datatype Screens = Screens(welcome: Display, continentChoice: Display, quiz: Display)

  function ShownCount(s: Screens): nat
  {
    (if s.welcome == Shown then 1 else 0)
    + (if s.continentChoice == Shown then 1 else 0)
    + (if s.quiz == Shown then 1 else 0)
  }

  /** switch_screens: the screen number in the store selects exactly one
      visible screen; every value other than 1 and 2 shows the quiz. */
  function SwitchScreens(current: int): (s: Screens)
    ensures ShownCount(s) == 1
    ensures s.welcome == Shown <==> current == 1
    ensures s.continentChoice == Shown <==> current == 2
    ensures s.quiz == Shown <==> current != 1 && current != 2
  {
    if current == 1 then Screens(Shown, Hidden, Hidden)
    else if current == 2 then Screens(Hidden, Shown, Hidden)
    else Screens(Hidden, Hidden, Shown)
  }

  /** navigate_screens: the next screen number, from the button that fired;
      `None` stands for an empty `ctx.triggered`. */
  function NavigateScreens(fired: Option<Trigger>, current: int): (next: int)
    ensures fired == Some(ToScreen2Button) ==> next == 2
    ensures fired == Some(BackToScreen2Button) ==> next == 2
    ensures fired == Some(ToScreen3Button) ==> next == 3
    ensures fired !in {Some(ToScreen2Button), Some(ToScreen3Button), Some(BackToScreen2Button)} ==>
              next == current
  {
    if fired.None? then current
    else match fired.value
      case ToScreen2Button => 2
      case ToScreen3Button => 3
      case BackToScreen2Button => 2
      case _ => current
  }

  /** Navigation never leaves the three screens, and the buttons lead to the
      screens their captions promise. */
  lemma NavigationStaysOnScreens(fired: Option<Trigger>, current: int)
    requires current in {1, 2, 3}
    ensures NavigateScreens(fired, current) in {1, 2, 3}
    ensures fired == Some(ToScreen3Button) ==> SwitchScreens(NavigateScreens(fired, current)).quiz == Shown
    ensures fired == Some(BackToScreen2Button) ==>
              SwitchScreens(NavigateScreens(fired, current)).continentChoice == Shown
  {
  }

  /* ---------------------------------------------------------------------- */
  /* Continent store                                                         */
  /* ---------------------------------------------------------------------- */

  /** set_continent: a cleared dropdown (None) keeps the stored continent. */
  function SetContinent(dropdownValue: Option<string>, stored: Option<string>): (r: Option<string>)
    ensures dropdownValue.None? ==> r == stored
    ensures dropdownValue.Some? ==> r == dropdownValue
  {
    if dropdownValue.None? then stored else dropdownValue
  }

  /** Storing the same dropdown value twice stores what storing it once does. */
  lemma SetContinentIdempotent(dropdownValue: Option<string>, stored: Option<string>)
    ensures SetContinent(dropdownValue, SetContinent(dropdownValue, stored))
            == SetContinent(dropdownValue, stored)
  {
  }

  /* ---------------------------------------------------------------------- */
  /* Filtering                                                               */
  /* ---------------------------------------------------------------------- */

  /** a can be obtained from b by deleting elements: a keeps b's order. */
  predicate IsSubsequence<T(==)>(a: seq<T>, b: seq<T>)
    decreases |b|
  {
    |a| == 0 || (|b| > 0 && ((a[0] == b[0] && IsSubsequence(a[1..], b[1..])) || IsSubsequence(a, b[1..])))
  }

  /** Every sequence is a subsequence of itself. */
  lemma {:induction false} SubsequenceOfItself<T>(s: seq<T>)
    ensures IsSubsequence(s, s)
    decreases |s|
  {
    if |s| > 0 {
      SubsequenceOfItself(s[1..]);
    }
  }

  /** Boolean-mask selection of a table (`df[mask]`): the rows that pass,
      in their original order. */
  function Filter<T(==,!new)>(s: seq<T>, keep: T -> bool): (r: seq<T>)
    ensures forall x :: x in r <==> x in s && keep(x)
    ensures IsSubsequence(r, s)
  {
    if s == [] then []
    else if keep(s[0]) then [s[0]] + Filter(s[1..], keep)
    else Filter(s[1..], keep)
  }

  /** The mask keeps every copy of a passing element and none of the others. */
  lemma {:induction false} FilterKeepsEveryCopy<T(!new)>(s: seq<T>, keep: T -> bool)
    ensures forall x :: multiset(Filter(s, keep))[x] == if keep(x) then multiset(s)[x] else 0
    decreases |s|
  {
    if s != [] {
      FilterKeepsEveryCopy(s[1..], keep);
      assert s == [s[0]] + s[1..];
    }
  }

  /** The rows of a catalog tagged with continent c (`df[df["continent"] == c]`),
      in catalog order. */
  function OnContinent(cat: seq<Row>, c: string): (on: seq<Row>)
    ensures forall r | r in on :: r.continent == c
  {
    Filter(cat, (r: Row) => r.continent == c)
  }

  /** The continent mask keeps exactly the rows tagged c, every copy of each,
      in catalog order. */
  lemma OnContinentRows(cat: seq<Row>, c: string)
    ensures forall r :: r in OnContinent(cat, c) <==> r in cat && r.continent == c
    ensures forall r :: multiset(OnContinent(cat, c))[r] == if r.continent == c then multiset(cat)[r] else 0
    ensures IsSubsequence(OnContinent(cat, c), cat)
  {
    FilterKeepsEveryCopy(cat, (r: Row) => r.continent == c);
  }

  /** The rows the quiz plays with (guess.py:211-216): the whole catalog for a
      falsy choice or "Alle", otherwise the rows of the chosen continent, and
      the whole catalog again when no row has that continent. */
  function QuizRows(cat: seq<Row>, chosen: Option<string>): (sub: seq<Row>)
    ensures Falsy(chosen) || chosen.value == "Alle" ==> sub == cat
    ensures !Falsy(chosen) && chosen.value != "Alle" && (exists r :: r in cat && r.continent == chosen.value) ==>
              sub == OnContinent(cat, chosen.value)
    ensures !Falsy(chosen) && (forall r | r in cat :: r.continent != chosen.value) ==> sub == cat
    ensures |cat| > 0 ==> |sub| > 0
    ensures IsSubsequence(sub, cat)
  {
    SubsequenceOfItself(cat);
    if Falsy(chosen) || chosen.value == "Alle" then cat
    else
      var on := OnContinent(cat, chosen.value);
      if on == [] then cat else assert on[0] in on; on
  }

  /** The German names of some rows, in row order. */
  function DeNames(rows: seq<Row>): (names: seq<string>)
    ensures |names| == |rows|
    ensures forall i | 0 <= i < |rows| :: names[i] == rows[i].de
  {
    seq(|rows|, i requires 0 <= i < |rows| => rows[i].de)
  }

  /* ---------------------------------------------------------------------- */
  /* Quiz step                                                               */
  /* ---------------------------------------------------------------------- */

  datatype DropdownOption = DropdownOption(caption: string, value: string)  // caption: the "label" key

  /** The guess dropdown (guess.py:219-222): one option per row, labelled and
      valued with its German name. */
  function DropdownOptions(rows: seq<Row>): (opts: seq<DropdownOption>)
    ensures |opts| == |rows|
    ensures forall i | 0 <= i < |rows| :: opts[i] == DropdownOption(rows[i].de, rows[i].de)
  {
    seq(|rows|, i requires 0 <= i < |rows| => DropdownOption(rows[i].de, rows[i].de))
  }

  /** The values the dropdown offers. */
  function OptionValues(opts: seq<DropdownOption>): seq<string>
  {
    seq(|opts|, i requires 0 <= i < |opts| => opts[i].value)
  }

  /** `random.choice(names)`: the draw is given as an index argument, so the
      element drawn is `names[pick % |names|]`; an empty list raises, which is
      `None` here. */
  function Choice(names: seq<string>, pick: nat): (r: Option<string>)
    ensures r.Some? <==> |names| > 0
    ensures r.Some? ==> r.value in names
  {
    if |names| == 0 then None else Some(names[pick % |names|])
  }

  /** Every name can be drawn: the index argument loses no outcome of the draw. */
  lemma ChoiceReachesEveryName(names: seq<string>, k: nat)
    requires k < |names|
    ensures Choice(names, k) == Some(names[k])
  {
    assert k % |names| == k;
  }

  const NO_GUESS_MESSAGE: string := "Bitte zuerst ein Land auswählen!"
  const CORRECT_MESSAGE: string := "Richtig! Neues Land wurde geladen."
  const WRONG_PREFIX: string := "Falsch! Richtig war: "

  /** The three outputs of manage_country_and_message, or the IndexError
      that `random.choice` raises on an empty list. */
  datatype QuizUpdate =
    | QuizUpdate(options: seq<DropdownOption>, target: Option<string>, message: string)
    | EmptyChoiceError

  /** manage_country_and_message (guess.py:196-244). `fired` is the trigger
      (None when nothing fired), `screen` the screen store, `chosen` the
      continent store, `guess` the guess dropdown's value and `current` the
      target store; `firstPick` and `secondPick` stand for the draws at lines
      226 and 240. */
  function ManageCountryAndMessage(cat: seq<Row>, fired: Option<Trigger>, screen: int,
                                   chosen: Option<string>, guess: Option<string>,
                                   current: Option<string>, firstPick: nat, secondPick: nat): (u: QuizUpdate)
    ensures fired.None? || screen != 3 ==> u == QuizUpdate([], None, "")
    ensures u.EmptyChoiceError? ==> |cat| == 0
    ensures u.QuizUpdate? && u.target.Some? ==> screen == 3 && fired.Some?
  {
    if fired.None? || screen != 3 then QuizUpdate([], None, "")
    else
      var sub := QuizRows(cat, chosen);
      var names := DeNames(sub);
      var opts := DropdownOptions(sub);
      var held := if Falsy(current) then Choice(names, firstPick) else current;
      if held.None? then EmptyChoiceError
      else if fired.value != GuessButton then QuizUpdate(opts, held, "")
      else if Falsy(guess) || Falsy(held) then QuizUpdate(opts, held, NO_GUESS_MESSAGE)
      else if guess.value == held.value then
        match Choice(names, secondPick)
        case None => EmptyChoiceError
        case Some(next) => QuizUpdate(opts, Some(next), CORRECT_MESSAGE)
      else QuizUpdate(opts, held, WRONG_PREFIX + held.value)
  }

  /** Away from the quiz screen the step clears everything, the target
      included; so leaving the quiz and coming back starts with a fresh draw. */
  lemma LeavingQuizClearsTarget(cat: seq<Row>, fired: Option<Trigger>, chosen: Option<string>,
                                guess: Option<string>, current: Option<string>, p1: nat, p2: nat)
    ensures NavigateScreens(Some(BackToScreen2Button), 3) == 2
    ensures ManageCountryAndMessage(cat, fired, NavigateScreens(Some(BackToScreen2Button), 3),
                                    chosen, guess, current, p1, p2)
            == QuizUpdate([], None, "")
  {
  }

  /** On the quiz screen the options are the playable rows' German names in
      order, each labelled with its own value; a target drawn because none was
      held is one of those values, and a held target is kept unless a correct
      guess replaces it. */
  lemma QuizOptionsAndTarget(cat: seq<Row>, fired: Trigger, chosen: Option<string>,
                             guess: Option<string>, current: Option<string>, p1: nat, p2: nat)
    requires |cat| > 0
    ensures var u := ManageCountryAndMessage(cat, Some(fired), 3, chosen, guess, current, p1, p2);
            u.QuizUpdate?
            && OptionValues(u.options) == DeNames(QuizRows(cat, chosen))
            && (forall o | o in u.options :: o.caption == o.value)
            && u.target.Some?
            && (Falsy(current) ==> u.target.value in OptionValues(u.options))
            && (!Falsy(current) && u.message != CORRECT_MESSAGE ==> u.target == current)
  {
    var u := ManageCountryAndMessage(cat, Some(fired), 3, chosen, guess, current, p1, p2);
    var opts := DropdownOptions(QuizRows(cat, chosen));
    assert OptionValues(opts) == DeNames(QuizRows(cat, chosen));
    if current.Some? {
      assert (WRONG_PREFIX + current.value)[0] == 'F';
    }
  }

  /** The three outcomes of pressing the guess button on the quiz screen, judged
      against the target the step holds (`held`: the stored one, or a fresh
      draw when none is stored). */
  lemma GuessOutcomes(cat: seq<Row>, chosen: Option<string>, guess: Option<string>,
                      current: Option<string>, p1: nat, p2: nat)
    requires |cat| > 0
    ensures var names := DeNames(QuizRows(cat, chosen));
            var held := if Falsy(current) then names[p1 % |names|] else current.value;
            var u := ManageCountryAndMessage(cat, Some(GuessButton), 3, chosen, guess, current, p1, p2);
            u.QuizUpdate?
            && (Falsy(guess) || held == "" ==> u.message == NO_GUESS_MESSAGE && u.target == Some(held))
            && (!Falsy(guess) && held != "" && guess.value != held ==>
                  u.message == WRONG_PREFIX + held && u.target == Some(held))
            && (!Falsy(guess) && held != "" && guess.value == held ==>
                  u.message == CORRECT_MESSAGE && u.target.Some? && u.target.value in names)
  {
  }

  /** Entering the quiz screen with no target held while a continent with
      rows is chosen draws the target among that continent's names and shows
      no message. */
  lemma EnterQuizOnContinent(cat: seq<Row>, c: string, p1: nat, p2: nat)
    requires c != "" && c != "Alle" && OnContinent(cat, c) != []
    ensures var u := ManageCountryAndMessage(cat, Some(ScreenStore), NavigateScreens(Some(ToScreen3Button), 2),
                                             Some(c), None, None, p1, p2);
            u.QuizUpdate? && u.options == DropdownOptions(OnContinent(cat, c))
            && u.target.Some? && u.message == ""
            && u.target.value in DeNames(OnContinent(cat, c))
  {
    var on := OnContinent(cat, c);
    assert on[0] in on;
    assert QuizRows(cat, Some(c)) == on;
  }

  /** Guessing while a continent with rows is chosen: the options are that
      continent's names; a wrong guess keeps the target and names it, a right
      one draws the next target from the same continent. */
  lemma GuessOnContinent(cat: seq<Row>, c: string, target: string, guess: string, p1: nat, p2: nat)
    requires c != "" && c != "Alle" && OnContinent(cat, c) != []
    requires target != "" && guess != ""
    ensures var u := ManageCountryAndMessage(cat, Some(GuessButton), 3, Some(c), Some(guess), Some(target), p1, p2);
            u.QuizUpdate? && u.options == DropdownOptions(OnContinent(cat, c))
            && (guess != target ==> u.target == Some(target) && u.message == WRONG_PREFIX + target)
            && (guess == target ==> u.message == CORRECT_MESSAGE && u.target.Some?
                                    && u.target.value in DeNames(OnContinent(cat, c)))
  {
    var on := OnContinent(cat, c);
    assert on[0] in on;
    assert QuizRows(cat, Some(c)) == on;
  }

  /** A trigger other than the guess button (entering the quiz screen) shows no
      message, whatever continent is chosen: it offers the playable rows, keeps
      a held target and otherwise draws one among the playable names. */
  lemma OtherTriggerKeepsTarget(cat: seq<Row>, fired: Trigger, chosen: Option<string>,
                                guess: Option<string>, current: Option<string>, p1: nat, p2: nat)
    requires |cat| > 0 && fired != GuessButton
    ensures var u := ManageCountryAndMessage(cat, Some(fired), 3, chosen, guess, current, p1, p2);
            u.QuizUpdate? && u.message == "" && u.options == DropdownOptions(QuizRows(cat, chosen))
            && (!Falsy(current) ==> u.target == current)
            && (Falsy(current) ==> u.target.Some? && u.target.value in DeNames(QuizRows(cat, chosen)))
  {
  }

  /* ---------------------------------------------------------------------- */
  /* Map                                                                     */
  /* ---------------------------------------------------------------------- */

  /** scope_map (guess.py:22-30): the map scope for each continent choice. */
  const SCOPE_MAP: map<string, string> := map[
    "Europa" := "europe",
    "Asien" := "asia",
    "Afrika" := "africa",
    "Nordamerika" := "north america",
    "Südamerika" := "south america",
    "Austrálie/Oceánie" := "world",
    "Alle" := "world"
  ]

  /** `scope_map.get(cont, "world")`. */
  function Scope(cont: string): (scope: string)
    ensures cont in SCOPE_MAP ==> scope == SCOPE_MAP[cont]
    ensures cont !in SCOPE_MAP ==> scope == "world"
  {
    if cont in SCOPE_MAP then SCOPE_MAP[cont] else "world"
  }

  /** The continents whose map is the whole world. */
  lemma WorldScopes(cont: string)
    ensures Scope("Alle") == "world" && Scope("Austrálie/Oceánie") == "world"
    ensures Scope("Europa") == "europe" && Scope("Asien") == "asia" && Scope("Afrika") == "africa"
    ensures Scope("Nordamerika") == "north america" && Scope("Südamerika") == "south america"
    ensures Scope(cont) != "world" <==> cont in {"Europa", "Asien", "Afrika", "Nordamerika", "Südamerika"}
  {
  }

  /** The English name of the first row with German name `de`
      (`df.loc[df["country_de"] == de]["country_en"].values[0]`), or None when
      no row has it. */
  function LookupEn(cat: seq<Row>, de: string): (r: Option<string>)
    ensures r.None? <==> forall i | 0 <= i < |cat| :: cat[i].de != de
    ensures r.Some? ==> exists i | 0 <= i < |cat| :: cat[i].de == de && r.value == cat[i].en
                                                  && forall k | 0 <= k < i :: cat[k].de != de
  {
    if cat == [] then None
    else if cat[0].de == de then Some(cat[0].en)
    else
      var r := LookupEn(cat[1..], de);
      assert r.Some? ==> exists i | 0 <= i < |cat| :: cat[i].de == de && r.value == cat[i].en
                                                     && forall k | 0 <= k < i :: cat[k].de != de by {
        if r.Some? {
          var j :| 0 <= j < |cat[1..]| && cat[1..][j].de == de && r.value == cat[1..][j].en
                   && forall k | 0 <= k < j :: cat[1..][k].de != de;
          assert forall k | 0 <= k < j + 1 :: cat[k].de != de by {
            forall k | 0 <= k < j + 1 ensures cat[k].de != de {
              if k > 0 { assert cat[k] == cat[1..][k - 1]; }
            }
          }
        }
      }
      r
  }

  datatype Colour = Selected | NonSelected
  datatype MapRow = MapRow(row: Row, colour: Colour)

  /** What update_map hands to the map renderer: the start placeholder, or a
      choropleth of some coloured rows at a scope, titled with `continent`. */
  datatype MapFigure =
    | Placeholder
    | Choropleth(rows: seq<MapRow>, scope: string, continent: string)

  /** The colour column (guess.py:269-272): a row is "selected" exactly when
      its English name is the selected one. */
  function ColourRows(cat: seq<Row>, selectedEn: Option<string>): (rows: seq<MapRow>)
    ensures |rows| == |cat|
    ensures forall i | 0 <= i < |cat| :: rows[i].row == cat[i]
    ensures forall i | 0 <= i < |cat| :: rows[i].colour == Selected <==> selectedEn == Some(cat[i].en)
  {
    seq(|cat|, i requires 0 <= i < |cat| =>
      MapRow(cat[i], if selectedEn == Some(cat[i].en) then Selected else NonSelected))
  }

  /** The catalog rows beneath some coloured map rows. */
  function Uncoloured(rows: seq<MapRow>): (r: seq<Row>)
    ensures |r| == |rows|
    ensures forall i | 0 <= i < |rows| :: r[i] == rows[i].row
  {
    seq(|rows|, i requires 0 <= i < |rows| => rows[i].row)
  }

  /** update_map without the figure construction (guess.py:254-279). */
  function UpdateMap(cat: seq<Row>, country: Option<string>, chosen: Option<string>): (f: MapFigure)
    ensures f.Placeholder? <==> Falsy(country)
    ensures f.Choropleth? ==> f.continent == (if Falsy(chosen) then "Alle" else chosen.value)
    ensures f.Choropleth? ==> f.scope == Scope(f.continent)
  {
    if Falsy(country) then Placeholder
    else
      var cont := if Falsy(chosen) then "Alle" else chosen.value;
      var coloured := ColourRows(cat, LookupEn(cat, country.value));
      var shown :=
        if cont == "Alle" then coloured
        else
          var on := Filter(coloured, (m: MapRow) => m.row.continent == cont);
          if on == [] then coloured else on;
      Choropleth(shown, Scope(cont), cont)
  }

  /** Stripping the colours commutes with the continent mask. */
  lemma {:induction false} UncolouredFilter(rows: seq<MapRow>, cont: string)
    ensures Uncoloured(Filter(rows, (m: MapRow) => m.row.continent == cont))
            == OnContinent(Uncoloured(rows), cont)
  {
    if rows != [] {
      var keep := (m: MapRow) => m.row.continent == cont;
      var plain := Uncoloured(rows);
      UncolouredFilter(rows[1..], cont);
      assert plain[1..] == Uncoloured(rows[1..]);
      assert plain[0] == rows[0].row;
      if keep(rows[0]) {
        UncolouredCons(rows[0], Filter(rows[1..], keep));
      }
    }
  }

  /** Stripping the colours of a row put in front. */
  lemma UncolouredCons(m: MapRow, rows: seq<MapRow>)
    ensures Uncoloured([m] + rows) == [m.row] + Uncoloured(rows)
  {
  }

  /** The map shows exactly the rows the quiz plays with, in the same order:
      both callbacks apply the same continent filter and fallback. */
  lemma MapShowsQuizRows(cat: seq<Row>, country: Option<string>, chosen: Option<string>)
    requires !Falsy(country)
    ensures Uncoloured(UpdateMap(cat, country, chosen).rows) == QuizRows(cat, chosen)
  {
    var cont := if Falsy(chosen) then "Alle" else chosen.value;
    var coloured := ColourRows(cat, LookupEn(cat, country.value));
    assert Uncoloured(coloured) == cat;
    if cont != "Alle" {
      UncolouredFilter(coloured, cont);
      var on := Filter(coloured, (m: MapRow) => m.row.continent == cont);
      if on == [] {
        assert OnContinent(cat, cont) == [];
      } else {
        assert OnContinent(cat, cont) != [];
      }
    }
  }

  /** On the map, a shown row is coloured "selected" exactly when its English
      name is that of the first catalog row carrying the target's German name;
      all other rows are "non-selected". */
  lemma MapColouring(cat: seq<Row>, country: Option<string>, chosen: Option<string>)
    requires !Falsy(country)
    ensures var f := UpdateMap(cat, country, chosen);
            forall m | m in f.rows ::
              (m.colour == Selected <==> LookupEn(cat, country.value) == Some(m.row.en))
  {
    var coloured := ColourRows(cat, LookupEn(cat, country.value));
    var f := UpdateMap(cat, country, chosen);
    forall m | m in f.rows
      ensures m.colour == Selected <==> LookupEn(cat, country.value) == Some(m.row.en)
    {
      assert m in coloured;
    }
  }

  /* ---------------------------------------------------------------------- */
  /* Properties of a catalog with distinct names                             */
  /* ---------------------------------------------------------------------- */

  predicate DistinctDe(cat: seq<Row>)
  {
    forall i, j | 0 <= i < |cat| && 0 <= j < |cat| && i != j :: cat[i].de != cat[j].de
  }

  predicate DistinctEn(cat: seq<Row>)
  {
    forall i, j | 0 <= i < |cat| && 0 <= j < |cat| && i != j :: cat[i].en != cat[j].en
  }

  /** With distinct German names the lookup finds the row itself. */
  lemma LookupFindsRow(cat: seq<Row>, i: nat)
    requires DistinctDe(cat)
    requires i < |cat|
    ensures LookupEn(cat, cat[i].de) == Some(cat[i].en)
  {
  }

  /** With distinct names, a target that is the German name of row i colours
      exactly the map rows that are row i, so at most one row is red. */
  lemma MapHighlightsTargetRow(cat: seq<Row>, i: nat, chosen: Option<string>)
    requires DistinctDe(cat) && DistinctEn(cat)
    requires i < |cat| && cat[i].de != ""
    ensures var f := UpdateMap(cat, Some(cat[i].de), chosen);
            forall m | m in f.rows :: (m.colour == Selected <==> m.row == cat[i])
  {
    LookupFindsRow(cat, i);
    MapColouring(cat, Some(cat[i].de), chosen);
    var f := UpdateMap(cat, Some(cat[i].de), chosen);
    MapShowsQuizRows(cat, Some(cat[i].de), chosen);
    forall m | m in f.rows ensures m.colour == Selected <==> m.row == cat[i] {
      var k :| 0 <= k < |f.rows| && f.rows[k] == m;
      assert m.row in QuizRows(cat, chosen) by {
        assert Uncoloured(f.rows)[k] == m.row;
      }
      assert m.row in cat;
    }
  }

  /** A subsequence of a sequence without repeated rows has none either. */
  lemma {:induction false} SubsequenceKeepsDistinct(a: seq<Row>, b: seq<Row>)
    requires IsSubsequence(a, b)
    requires forall i, j | 0 <= i < j < |b| :: b[i] != b[j]
    ensures forall i, j | 0 <= i < j < |a| :: a[i] != a[j]
    ensures forall x | x in a :: x in b
    decreases |b|
  {
    if |a| > 0 {
      assert |b| > 0;
      forall i, j | 0 <= i < j < |b[1..]| ensures b[1..][i] != b[1..][j] {
        assert b[1..][i] == b[i + 1] && b[1..][j] == b[j + 1];
      }
      if a[0] == b[0] && IsSubsequence(a[1..], b[1..]) {
        SubsequenceKeepsDistinct(a[1..], b[1..]);
        forall i, j | 0 <= i < j < |a| ensures a[i] != a[j] {
          if i == 0 {
            assert a[j] == a[1..][j - 1];
            assert a[j] in b[1..];
          } else {
            assert a[i] == a[1..][i - 1] && a[j] == a[1..][j - 1];
          }
        }
        forall x | x in a ensures x in b {
          if x != a[0] { assert x in a[1..]; }
        }
      } else {
        SubsequenceKeepsDistinct(a, b[1..]);
      }
    }
  }

  /** With distinct names, the map paints exactly one of its rows red when
      the target is the German name of a row the quiz plays: that row. */
  lemma MapPaintsOneRow(cat: seq<Row>, i: nat, chosen: Option<string>)
    requires DistinctDe(cat) && DistinctEn(cat)
    requires i < |cat| && cat[i].de != "" && cat[i] in QuizRows(cat, chosen)
    ensures var f := UpdateMap(cat, Some(cat[i].de), chosen);
            f.Choropleth?
            && exists k | 0 <= k < |f.rows| ::
                 f.rows[k].row == cat[i]
                 && forall k' | 0 <= k' < |f.rows| :: f.rows[k'].colour == Selected <==> k' == k
  {
    var f := UpdateMap(cat, Some(cat[i].de), chosen);
    var sub := QuizRows(cat, chosen);
    MapHighlightsTargetRow(cat, i, chosen);
    MapShowsQuizRows(cat, Some(cat[i].de), chosen);
    QuizRowsDistinct(cat, chosen);
    OnePaintedRow(f.rows, sub, cat[i]);
  }

  /** With distinct German names the quiz plays no row twice. */
  lemma QuizRowsDistinct(cat: seq<Row>, chosen: Option<string>)
    requires DistinctDe(cat)
    ensures var sub := QuizRows(cat, chosen);
            forall a, b | 0 <= a < b < |sub| :: sub[a] != sub[b]
  {
    assert forall a, b | 0 <= a < b < |cat| :: cat[a] != cat[b];
    SubsequenceKeepsDistinct(QuizRows(cat, chosen), cat);
  }

  /** Map rows over distinct catalog rows, where exactly the rows equal to
      `target` are selected and `target` is among them: one position is
      selected, the one holding `target`. */
  lemma OnePaintedRow(rows: seq<MapRow>, shown: seq<Row>, target: Row)
    requires Uncoloured(rows) == shown && target in shown
    requires forall a, b | 0 <= a < b < |shown| :: shown[a] != shown[b]
    requires forall m | m in rows :: (m.colour == Selected <==> m.row == target)
    ensures exists k | 0 <= k < |rows| ::
              rows[k].row == target
              && forall k' | 0 <= k' < |rows| :: rows[k'].colour == Selected <==> k' == k
  {
    var k :| 0 <= k < |shown| && shown[k] == target;
    forall k' | 0 <= k' < |rows| ensures rows[k'].colour == Selected <==> k' == k {
      assert rows[k'] in rows;
      assert shown[k'] == rows[k'].row;
    }
  }
}

/** What the quiz's callbacks can rely on when they read the real catalog:
    the continent blocks, their sizes, the continent choices and map scopes,
    and that each German or English name picks out a single row. */
module CatalogFacts {
  import opened Countries
  import opened Guess

  lemma CatalogIsEntries()
    ensures |CATALOG| == SIZE
    ensures forall i | 0 <= i < SIZE :: CATALOG[i] == Entry(i)
  {
  }

  /** A continent tag that holds exactly on positions lo..hi selects that slice. */
  lemma {:induction false} OnContinentSlice(s: seq<Row>, c: string, lo: nat, hi: nat)
    requires lo <= hi <= |s|
    requires forall i | 0 <= i < |s| :: s[i].continent == c <==> lo <= i < hi
    ensures OnContinent(s, c) == s[lo..hi]
    decreases |s|
  {
    if s != [] {
      var lo', hi' := if lo > 0 then lo - 1 else 0, if hi > 0 then hi - 1 else 0;
      forall i | 0 <= i < |s[1..]| ensures s[1..][i].continent == c <==> lo' <= i < hi' {
        assert s[1..][i] == s[i + 1];
      }
      OnContinentSlice(s[1..], c, lo', hi');
      if s[0].continent == c {
        assert lo == 0 && hi > 0;
        assert s[0..hi] == [s[0]] + s[1..][0..hi - 1];
      } else {
        assert s[1..][lo'..hi'] == s[lo..hi];
      }
    }
  }

  /** Each continent tag holds exactly on its block of the list. */
  lemma BlockOf(c: string, lo: nat, hi: nat)
    requires (c, lo, hi) in {("Afrika", 0, 15), ("Asien", 15, 31), ("Europa", 31, 77),
                             ("Nordamerika", 77, 82), ("Südamerika", 82, 90), ("Austrálie/Oceánie", 90, 92)}
    ensures OnContinent(CATALOG, c) == CATALOG[lo..hi]
  {
    EntryContinents();
    OnContinentSlice(CATALOG, c, lo, hi);
  }

  /** The catalog has 92 rows: 15 in Afrika, 16 in Asien, 46 in Europa, 5 in
      Nordamerika, 8 in Südamerika and 2 in Austrálie/Oceánie. */
  lemma ContinentCounts()
    ensures |CATALOG| == 92
    ensures |OnContinent(CATALOG, "Afrika")| == 15
    ensures |OnContinent(CATALOG, "Asien")| == 16
    ensures |OnContinent(CATALOG, "Europa")| == 46
    ensures |OnContinent(CATALOG, "Nordamerika")| == 5
    ensures |OnContinent(CATALOG, "Südamerika")| == 8
    ensures |OnContinent(CATALOG, "Austrálie/Oceánie")| == 2
  {
    BlockOf("Afrika", 0, 15);
    BlockOf("Asien", 15, 31);
    BlockOf("Europa", 31, 77);
    BlockOf("Nordamerika", 77, 82);
    BlockOf("Südamerika", 82, 90);
    BlockOf("Austrálie/Oceánie", 90, 92);
  }

  /** The continent tags that occur in a catalog: what the continent dropdown
      offers besides "Alle" (guess.py:72-73). */
  function ContinentTags(cat: seq<Row>): set<string>
  {
    set r | r in cat :: r.continent
  }

  /** The catalog uses exactly the six continent tags. */
  lemma CatalogContinentTags()
    ensures ContinentTags(CATALOG) == set c | c in CONTINENTS
  {
    EntryContinents();
    assert CATALOG[0].continent == "Afrika";
    assert CATALOG[15].continent == "Asien";
    assert CATALOG[31].continent == "Europa";
    assert CATALOG[77].continent == "Nordamerika";
    assert CATALOG[82].continent == "Südamerika";
    assert CATALOG[90].continent == "Austrálie/Oceánie";
  }

  /** Whatever the continent dropdown offers, the quiz plays a non-empty set of
      rows without falling back: "Alle" plays the whole catalog and a continent
      plays exactly its own rows. */
  lemma NoFallbackForOfferedChoices(choice: string)
    requires choice == "Alle" || choice in ContinentTags(CATALOG)
    ensures choice == "Alle" ==> QuizRows(CATALOG, Some(choice)) == CATALOG
    ensures choice != "Alle" ==> QuizRows(CATALOG, Some(choice)) == OnContinent(CATALOG, choice)
    ensures |QuizRows(CATALOG, Some(choice))| > 0
  {
    CatalogContinentTags();
  }

  /** Every continent has a map scope, and only Europa, Asien, Afrika and the
      two Americas have a scope other than the whole world. */
  lemma ScopesOfContinents()
    ensures forall c | c in CONTINENTS :: c in SCOPE_MAP
    ensures forall c | c in ContinentTags(CATALOG) :: (Scope(c) == "world" <==> c == "Austrálie/Oceánie")
  {
    CatalogContinentTags();
  }

  /** Every name in the catalog is non-empty. */
  lemma CatalogNamesNonEmpty()
    ensures forall r | r in CATALOG :: r.de != "" && r.en != ""
  {
    CatalogIsEntries();
    EntryNamesNonEmpty();
  }

  /** No two rows share a German name, nor an English one. */
  lemma CatalogNamesDistinct()
    ensures DistinctDe(CATALOG)
    ensures DistinctEn(CATALOG)
  {
    DeNamesDistinct();
    EnNamesDistinct();
  }

  /** Looking a German name of the catalog up finds its own row, so the guess
      check and the map lookup both identify a single country. */
  lemma CatalogLookups(i: nat)
    requires i < |CATALOG|
    ensures LookupEn(CATALOG, CATALOG[i].de) == Some(CATALOG[i].en)
    ensures forall j | 0 <= j < |CATALOG| :: CATALOG[j].de == CATALOG[i].de <==> j == i
  {
    CatalogNamesDistinct();
    LookupFindsRow(CATALOG, i);
  }

  /** On the real catalog the map paints exactly one country red whenever the
      target is a German name of a row the quiz plays: the row of that name. */
  lemma MapPaintsOneCountry(i: nat, chosen: Option<string>)
    requires i < |CATALOG| && CATALOG[i] in QuizRows(CATALOG, chosen)
    ensures var f := UpdateMap(CATALOG, Some(CATALOG[i].de), chosen);
            f.Choropleth?
            && exists k | 0 <= k < |f.rows| ::
                 f.rows[k].row == CATALOG[i]
                 && forall k' | 0 <= k' < |f.rows| :: f.rows[k'].colour == Selected <==> k' == k
  {
    CatalogNamesDistinct();
    CatalogNamesNonEmpty();
    MapPaintsOneRow(CATALOG, i, chosen);
  }

  /** Entering the quiz screen with an offered continent `c` chosen draws a
      target among c's German names and shows no message. */
  lemma EnteringQuizDrawsFromContinent(c: string, p1: nat, p2: nat)
    requires c in ContinentTags(CATALOG)
    ensures var enter := ManageCountryAndMessage(CATALOG, Some(ScreenStore), NavigateScreens(Some(ToScreen3Button), 2),
                                                 Some(c), None, None, p1, p2);
            enter.QuizUpdate? && enter.target.Some? && enter.message == ""
            && enter.target.value in DeNames(OnContinent(CATALOG, c))
  {
    NoFallbackForOfferedChoices(c);
    assert c != "Alle" && c != "" by { CatalogContinentTags(); }
    EnterQuizOnContinent(CATALOG, c, p1, p2);
  }

  /** A German name of a row on continent `c` is non-empty. */
  lemma ContinentNameNonEmpty(c: string, target: string)
    requires target in DeNames(OnContinent(CATALOG, c))
    ensures target != ""
  {
    var sub := OnContinent(CATALOG, c);
    var k :| 0 <= k < |sub| && sub[k].de == target;
    assert sub[k] in CATALOG;
    CatalogNamesNonEmpty();
  }

  /** On the real catalog, guessing on an offered continent `c` with a target
      among c's names: a wrong guess keeps the target and names it in the
      message; a correct one loads a new target, again one of c's names. */
  lemma GuessingOnContinent(c: string, target: string, guess: string, p1: nat, p2: nat)
    requires c in ContinentTags(CATALOG)
    requires target in DeNames(OnContinent(CATALOG, c)) && guess != ""
    ensures var u := ManageCountryAndMessage(CATALOG, Some(GuessButton), 3, Some(c), Some(guess),
                                             Some(target), p1, p2);
            u.QuizUpdate?
            && (guess != target ==> u.target == Some(target) && u.message == WRONG_PREFIX + target)
            && (guess == target ==> u.message == CORRECT_MESSAGE && u.target.Some?
                                    && u.target.value in DeNames(OnContinent(CATALOG, c)))
  {
    NoFallbackForOfferedChoices(c);
    ContinentNameNonEmpty(c, target);
    assert c != "Alle" && c != "" by { CatalogContinentTags(); }
    GuessOnContinent(CATALOG, c, target, guess, p1, p2);
  }
}

/** The static country catalog of the quiz (countries_data.py): one row per
    playable country, with its continent tag, its German display name (what the
    player picks from the dropdown) and its English name (what the map uses to
    locate the country). The list is grouped by continent, in the order written. */
module Countries {

  datatype Row = Row(continent: string, de: string, en: string)

  /** The number of rows in the catalog. */
  const SIZE: nat := 92

  /** The six continent tags the catalog uses, in the order its blocks appear. */
  const CONTINENTS: seq<string> := ["Afrika", "Asien", "Europa", "Nordamerika", "Südamerika", "Austrálie/Oceánie"]

  /** Row i of the catalog: the list is written in six continent blocks. */
  function Entry(i: nat): Row
    requires i < SIZE
  {
    if i < 15 then AfrikaRow(i)
    else if i < 31 then AsienRow(i - 15)
    else if i < 77 then EuropaRow(i - 31)
    else if i < 82 then NordamerikaRow(i - 77)
    else if i < 90 then SuedamerikaRow(i - 82)
    else OzeanienRow(i - 90)
  }

  // countries_data.py lines 3-17
  function AfrikaRow(k: nat): Row
    requires k < 15
  {
    match k
    case 0 => Row("Afrika", "Marokko", "Morocco")
    case 1 => Row("Afrika", "Algerien", "Algeria")
    case 2 => Row("Afrika", "Tunesien", "Tunisia")
    case 3 => Row("Afrika", "Libyen", "Libya")
    case 4 => Row("Afrika", "Ägypten", "Egypt")
    case 5 => Row("Afrika", "Äthiopien", "Ethiopia")
    case 6 => Row("Afrika", "Eritrea", "Eritrea")
    case 7 => Row("Afrika", "Kenia", "Kenya")
    case 8 => Row("Afrika", "Somalia", "Somalia")
    case 9 => Row("Afrika", "Mali", "Mali")
    case 10 => Row("Afrika", "Ghana", "Ghana")
    case 11 => Row("Afrika", "Demokratische Republik Kongo", "Democratic Republic of the Congo")
    case 12 => Row("Afrika", "Nigeria", "Nigeria")
    case 13 => Row("Afrika", "Madagaskar", "Madagascar")
    case 14 => Row("Afrika", "Südafrika", "South Africa")
  }

  // countries_data.py lines 20-35
  function AsienRow(k: nat): Row
    requires k < 16
  {
    match k
    case 0 => Row("Asien", "China", "China")
    case 1 => Row("Asien", "Indien", "India")
    case 2 => Row("Asien", "Indonesien", "Indonesia")
    case 3 => Row("Asien", "Thailand", "Thailand")
    case 4 => Row("Asien", "Bangladesch", "Bangladesh")
    case 5 => Row("Asien", "Japan", "Japan")
    case 6 => Row("Asien", "Pakistan", "Pakistan")
    case 7 => Row("Asien", "Afghanistan", "Afghanistan")
    case 8 => Row("Asien", "Saudi-Arabien", "Saudi Arabia")
    case 9 => Row("Asien", "Südkorea", "South Korea")
    case 10 => Row("Asien", "Nordkorea", "North Korea")
    case 11 => Row("Asien", "Syrien", "Syria")
    case 12 => Row("Asien", "Iran", "Iran")
    case 13 => Row("Asien", "Irak", "Iraq")
    case 14 => Row("Asien", "Malaysia", "Malaysia")
    case 15 => Row("Asien", "Philippinen", "Philippines")
  }

  // countries_data.py lines 38-83
  function EuropaRow(k: nat): Row
    requires k < 46
  {
    match k
    case 0 => Row("Europa", "Albanien", "Albania")
    case 1 => Row("Europa", "Andorra", "Andorra")
    case 2 => Row("Europa", "Belarus", "Belarus")
    case 3 => Row("Europa", "Belgien", "Belgium")
    case 4 => Row("Europa", "Bosnien-Herzegowina", "Bosnia and Herzegovina")
    case 5 => Row("Europa", "Bulgarien", "Bulgaria")
    case 6 => Row("Europa", "Dänemark", "Denmark")
    case 7 => Row("Europa", "Deutschland", "Germany")
    case 8 => Row("Europa", "Estland", "Estonia")
    case 9 => Row("Europa", "Finnland", "Finland")
    case 10 => Row("Europa", "Frankreich", "France")
    case 11 => Row("Europa", "Griechenland", "Greece")
    case 12 => Row("Europa", "Großbritannien", "United Kingdom")
    case 13 => Row("Europa", "Irland", "Ireland")
    case 14 => Row("Europa", "Island", "Iceland")
    case 15 => Row("Europa", "Italien", "Italy")
    case 16 => Row("Europa", "Kosovo", "Kosovo")
    case 17 => Row("Europa", "Kroatien", "Croatia")
    case 18 => Row("Europa", "Lettland", "Latvia")
    case 19 => Row("Europa", "Liechtenstein", "Liechtenstein")
    case 20 => Row("Europa", "Litauen", "Lithuania")
    case 21 => Row("Europa", "Luxemburg", "Luxembourg")
    case 22 => Row("Europa", "Malta", "Malta")
    case 23 => Row("Europa", "Moldowa", "Moldova")
    case 24 => Row("Europa", "Monaco", "Monaco")
    case 25 => Row("Europa", "Montenegro", "Montenegro")
    case 26 => Row("Europa", "Niederlande", "Netherlands")
    case 27 => Row("Europa", "Nordmazedonien", "North Macedonia")
    case 28 => Row("Europa", "Norwegen", "Norway")
    case 29 => Row("Europa", "Österreich", "Austria")
    case 30 => Row("Europa", "Polen", "Poland")
    case 31 => Row("Europa", "Portugal", "Portugal")
    case 32 => Row("Europa", "Rumänien", "Romania")
    case 33 => Row("Europa", "Russland", "Russia")
    case 34 => Row("Europa", "San Marino", "San Marino")
    case 35 => Row("Europa", "Schweiz", "Switzerland")
    case 36 => Row("Europa", "Schweden", "Sweden")
    case 37 => Row("Europa", "Serbien", "Serbia")
    case 38 => Row("Europa", "Slowakei", "Slovakia")
    case 39 => Row("Europa", "Slowenien", "Slovenia")
    case 40 => Row("Europa", "Spanien", "Spain")
    case 41 => Row("Europa", "Tschechien", "Czech Republic")
    case 42 => Row("Europa", "Türkei", "Turkey")
    case 43 => Row("Europa", "Ukraine", "Ukraine")
    case 44 => Row("Europa", "Ungarn", "Hungary")
    case 45 => Row("Europa", "Vatikanstadt", "Vatican City")
  }

  // countries_data.py lines 86-90
  function NordamerikaRow(k: nat): Row
    requires k < 5
  {
    match k
    case 0 => Row("Nordamerika", "Jamaika", "Jamaica")
    case 1 => Row("Nordamerika", "Kanada", "Canada")
    case 2 => Row("Nordamerika", "Kuba", "Cuba")
    case 3 => Row("Nordamerika", "Mexiko", "Mexico")
    case 4 => Row("Nordamerika", "USA", "United States")
  }

  // countries_data.py lines 93-100
  function SuedamerikaRow(k: nat): Row
    requires k < 8
  {
    match k
    case 0 => Row("Südamerika", "Argentinien", "Argentina")
    case 1 => Row("Südamerika", "Bolivien", "Bolivia")
    case 2 => Row("Südamerika", "Brasilien", "Brazil")
    case 3 => Row("Südamerika", "Chile", "Chile")
    case 4 => Row("Südamerika", "Peru", "Peru")
    case 5 => Row("Südamerika", "Venezuela", "Venezuela")
    case 6 => Row("Südamerika", "Kolumbien", "Colombia")
    case 7 => Row("Südamerika", "Ecuador", "Ecuador")
  }

  // countries_data.py lines 103-104
  function OzeanienRow(k: nat): Row
    requires k < 2
  {
    match k
    case 0 => Row("Austrálie/Oceánie", "Australien", "Australia")
    case 1 => Row("Austrálie/Oceánie", "Neuseeland", "New Zealand")
  }


  /** The catalog as the quiz reads it: every row, in list order. */
  const CATALOG: seq<Row> := seq(SIZE, i requires 0 <= i < SIZE => Entry(i))

  /** The continent block that position i of the catalog falls into. */
  function BlockContinent(i: nat): (c: string)
    ensures c in CONTINENTS
  {
    if i < 15 then "Afrika"
    else if i < 31 then "Asien"
    else if i < 77 then "Europa"
    else if i < 82 then "Nordamerika"
    else if i < 90 then "Südamerika"
    else "Austrálie/Oceánie"
  }

  /** Every row carries the continent of the block it is written in, so every
      continent tag in the catalog is one of the six. */
  lemma EntryContinents()
    ensures forall i | 0 <= i < SIZE :: Entry(i).continent == BlockContinent(i)
    ensures forall i | 0 <= i < SIZE :: Entry(i).continent in CONTINENTS
  {
    Blocks();
  }

  /** No row has an empty name, so every name is truthy where the quiz tests it. */
  lemma EntryNamesNonEmpty()
    ensures forall i | 0 <= i < SIZE :: Entry(i).de != "" && Entry(i).en != ""
  {
    Blocks();
  }

  // The blocks one at a time (countries_data.py lines 3-17, 20-35, 38-83, 86-100, 103-104).
  lemma Blocks()
    ensures forall i | 0 <= i < SIZE :: Entry(i).continent == BlockContinent(i)
    ensures forall i | 0 <= i < SIZE :: Entry(i).de != "" && Entry(i).en != ""
  {
    AfrikaBlock();
    AsienBlock();
    EuropaBlock();
    AmerikaBlocks();
    OzeanienBlock();
  }

  lemma AfrikaBlock()
    ensures forall i | 0 <= i < 15 :: Entry(i).continent == "Afrika" && Entry(i).de != "" && Entry(i).en != ""
  {
  }

  lemma AsienBlock()
    ensures forall i | 15 <= i < 31 :: Entry(i).continent == "Asien" && Entry(i).de != "" && Entry(i).en != ""
  {
  }

  lemma EuropaBlock()
    ensures forall i | 31 <= i < 77 :: Entry(i).continent == "Europa" && Entry(i).de != "" && Entry(i).en != ""
  {
  }

  lemma AmerikaBlocks()
    ensures forall i | 77 <= i < 82 :: Entry(i).continent == "Nordamerika" && Entry(i).de != "" && Entry(i).en != ""
    ensures forall i | 82 <= i < 90 :: Entry(i).continent == "Südamerika" && Entry(i).de != "" && Entry(i).en != ""
  {
  }

  lemma OzeanienBlock()
    ensures forall i | 90 <= i < SIZE :: Entry(i).continent == "Austrálie/Oceánie" && Entry(i).de != "" && Entry(i).en != ""
  {
  }

  /** No two rows share a German name. */
  lemma DeNamesDistinct()
    ensures forall i, j | 0 <= i < SIZE && 0 <= j < SIZE && i != j :: Entry(i).de != Entry(j).de
  {
    forall i | 0 <= i < SIZE
      ensures forall j | i < j < SIZE :: Entry(j).de != Entry(i).de
    {
      if i < 46 { DeUniqueLow(i); } else { DeUniqueHigh(i); }
    }
  }

  lemma DeUniqueLow(i: nat)
    requires 0 <= i < 46
    ensures forall j | i < j < SIZE :: Entry(j).de != Entry(i).de
  {
    if i == 0 { DeUniqueAfter0(); }
    else if i == 1 { DeUniqueAfter1(); }
    else if i == 2 { DeUniqueAfter2(); }
    else if i == 3 { DeUniqueAfter3(); }
    else if i == 4 { DeUniqueAfter4(); }
    else if i == 5 { DeUniqueAfter5(); }
    else if i == 6 { DeUniqueAfter6(); }
    else if i == 7 { DeUniqueAfter7(); }
    else if i == 8 { DeUniqueAfter8(); }
    else if i == 9 { DeUniqueAfter9(); }
    else if i == 10 { DeUniqueAfter10(); }
    else if i == 11 { DeUniqueAfter11(); }
    else if i == 12 { DeUniqueAfter12(); }
    else if i == 13 { DeUniqueAfter13(); }
    else if i == 14 { DeUniqueAfter14(); }
    else if i == 15 { DeUniqueAfter15(); }
    else if i == 16 { DeUniqueAfter16(); }
    else if i == 17 { DeUniqueAfter17(); }
    else if i == 18 { DeUniqueAfter18(); }
    else if i == 19 { DeUniqueAfter19(); }
    else if i == 20 { DeUniqueAfter20(); }
    else if i == 21 { DeUniqueAfter21(); }
    else if i == 22 { DeUniqueAfter22(); }
    else if i == 23 { DeUniqueAfter23(); }
    else if i == 24 { DeUniqueAfter24(); }
    else if i == 25 { DeUniqueAfter25(); }
    else if i == 26 { DeUniqueAfter26(); }
    else if i == 27 { DeUniqueAfter27(); }
    else if i == 28 { DeUniqueAfter28(); }
    else if i == 29 { DeUniqueAfter29(); }
    else if i == 30 { DeUniqueAfter30(); }
    else if i == 31 { DeUniqueAfter31(); }
    else if i == 32 { DeUniqueAfter32(); }
    else if i == 33 { DeUniqueAfter33(); }
    else if i == 34 { DeUniqueAfter34(); }
    else if i == 35 { DeUniqueAfter35(); }
    else if i == 36 { DeUniqueAfter36(); }
    else if i == 37 { DeUniqueAfter37(); }
    else if i == 38 { DeUniqueAfter38(); }
    else if i == 39 { DeUniqueAfter39(); }
    else if i == 40 { DeUniqueAfter40(); }
    else if i == 41 { DeUniqueAfter41(); }
    else if i == 42 { DeUniqueAfter42(); }
    else if i == 43 { DeUniqueAfter43(); }
    else if i == 44 { DeUniqueAfter44(); }
    else if i == 45 { DeUniqueAfter45(); }
  }

  lemma DeUniqueHigh(i: nat)
    requires 46 <= i < 92
    ensures forall j | i < j < SIZE :: Entry(j).de != Entry(i).de
  {
    if i == 46 { DeUniqueAfter46(); }
    else if i == 47 { DeUniqueAfter47(); }
    else if i == 48 { DeUniqueAfter48(); }
    else if i == 49 { DeUniqueAfter49(); }
    else if i == 50 { DeUniqueAfter50(); }
    else if i == 51 { DeUniqueAfter51(); }
    else if i == 52 { DeUniqueAfter52(); }
    else if i == 53 { DeUniqueAfter53(); }
    else if i == 54 { DeUniqueAfter54(); }
    else if i == 55 { DeUniqueAfter55(); }
    else if i == 56 { DeUniqueAfter56(); }
    else if i == 57 { DeUniqueAfter57(); }
    else if i == 58 { DeUniqueAfter58(); }
    else if i == 59 { DeUniqueAfter59(); }
    else if i == 60 { DeUniqueAfter60(); }
    else if i == 61 { DeUniqueAfter61(); }
    else if i == 62 { DeUniqueAfter62(); }
    else if i == 63 { DeUniqueAfter63(); }
    else if i == 64 { DeUniqueAfter64(); }
    else if i == 65 { DeUniqueAfter65(); }
    else if i == 66 { DeUniqueAfter66(); }
    else if i == 67 { DeUniqueAfter67(); }
    else if i == 68 { DeUniqueAfter68(); }
    else if i == 69 { DeUniqueAfter69(); }
    else if i == 70 { DeUniqueAfter70(); }
    else if i == 71 { DeUniqueAfter71(); }
    else if i == 72 { DeUniqueAfter72(); }
    else if i == 73 { DeUniqueAfter73(); }
    else if i == 74 { DeUniqueAfter74(); }
    else if i == 75 { DeUniqueAfter75(); }
    else if i == 76 { DeUniqueAfter76(); }
    else if i == 77 { DeUniqueAfter77(); }
    else if i == 78 { DeUniqueAfter78(); }
    else if i == 79 { DeUniqueAfter79(); }
    else if i == 80 { DeUniqueAfter80(); }
    else if i == 81 { DeUniqueAfter81(); }
    else if i == 82 { DeUniqueAfter82(); }
    else if i == 83 { DeUniqueAfter83(); }
    else if i == 84 { DeUniqueAfter84(); }
    else if i == 85 { DeUniqueAfter85(); }
    else if i == 86 { DeUniqueAfter86(); }
    else if i == 87 { DeUniqueAfter87(); }
    else if i == 88 { DeUniqueAfter88(); }
    else if i == 89 { DeUniqueAfter89(); }
    else if i == 90 { DeUniqueAfter90(); }
  }

  // Row by row: the German name of row i differs from that of every later row.

  lemma DeUniqueAfter0() ensures forall j | 0 < j < SIZE :: Entry(j).de != Entry(0).de {}
  lemma DeUniqueAfter1() ensures forall j | 1 < j < SIZE :: Entry(j).de != Entry(1).de {}
  lemma DeUniqueAfter2() ensures forall j | 2 < j < SIZE :: Entry(j).de != Entry(2).de {}
  lemma DeUniqueAfter3() ensures forall j | 3 < j < SIZE :: Entry(j).de != Entry(3).de {}
  lemma DeUniqueAfter4() ensures forall j | 4 < j < SIZE :: Entry(j).de != Entry(4).de {}
  lemma DeUniqueAfter5() ensures forall j | 5 < j < SIZE :: Entry(j).de != Entry(5).de {}
  lemma DeUniqueAfter6() ensures forall j | 6 < j < SIZE :: Entry(j).de != Entry(6).de {}
  lemma DeUniqueAfter7() ensures forall j | 7 < j < SIZE :: Entry(j).de != Entry(7).de {}
  lemma DeUniqueAfter8() ensures forall j | 8 < j < SIZE :: Entry(j).de != Entry(8).de {}
  lemma DeUniqueAfter9() ensures forall j | 9 < j < SIZE :: Entry(j).de != Entry(9).de {}
  lemma DeUniqueAfter10() ensures forall j | 10 < j < SIZE :: Entry(j).de != Entry(10).de {}
  lemma DeUniqueAfter11() ensures forall j | 11 < j < SIZE :: Entry(j).de != Entry(11).de {}
  lemma DeUniqueAfter12() ensures forall j | 12 < j < SIZE :: Entry(j).de != Entry(12).de {}
  lemma DeUniqueAfter13() ensures forall j | 13 < j < SIZE :: Entry(j).de != Entry(13).de {}
  lemma DeUniqueAfter14() ensures forall j | 14 < j < SIZE :: Entry(j).de != Entry(14).de {}
  lemma DeUniqueAfter15() ensures forall j | 15 < j < SIZE :: Entry(j).de != Entry(15).de {}
  lemma DeUniqueAfter16() ensures forall j | 16 < j < SIZE :: Entry(j).de != Entry(16).de {}
  lemma DeUniqueAfter17() ensures forall j | 17 < j < SIZE :: Entry(j).de != Entry(17).de {}
  lemma DeUniqueAfter18() ensures forall j | 18 < j < SIZE :: Entry(j).de != Entry(18).de {}
  lemma DeUniqueAfter19() ensures forall j | 19 < j < SIZE :: Entry(j).de != Entry(19).de {}
  lemma DeUniqueAfter20() ensures forall j | 20 < j < SIZE :: Entry(j).de != Entry(20).de {}
  lemma DeUniqueAfter21() ensures forall j | 21 < j < SIZE :: Entry(j).de != Entry(21).de {}
  lemma DeUniqueAfter22() ensures forall j | 22 < j < SIZE :: Entry(j).de != Entry(22).de {}
  lemma DeUniqueAfter23() ensures forall j | 23 < j < SIZE :: Entry(j).de != Entry(23).de {}
  lemma DeUniqueAfter24() ensures forall j | 24 < j < SIZE :: Entry(j).de != Entry(24).de {}
  lemma DeUniqueAfter25() ensures forall j | 25 < j < SIZE :: Entry(j).de != Entry(25).de {}
  lemma DeUniqueAfter26() ensures forall j | 26 < j < SIZE :: Entry(j).de != Entry(26).de {}
  lemma DeUniqueAfter27() ensures forall j | 27 < j < SIZE :: Entry(j).de != Entry(27).de {}
  lemma DeUniqueAfter28() ensures forall j | 28 < j < SIZE :: Entry(j).de != Entry(28).de {}
  lemma DeUniqueAfter29() ensures forall j | 29 < j < SIZE :: Entry(j).de != Entry(29).de {}
  lemma DeUniqueAfter30() ensures forall j | 30 < j < SIZE :: Entry(j).de != Entry(30).de {}
  lemma DeUniqueAfter31() ensures forall j | 31 < j < SIZE :: Entry(j).de != Entry(31).de {}
  lemma DeUniqueAfter32() ensures forall j | 32 < j < SIZE :: Entry(j).de != Entry(32).de {}
  lemma DeUniqueAfter33() ensures forall j | 33 < j < SIZE :: Entry(j).de != Entry(33).de {}
  lemma DeUniqueAfter34() ensures forall j | 34 < j < SIZE :: Entry(j).de != Entry(34).de {}
  lemma DeUniqueAfter35() ensures forall j | 35 < j < SIZE :: Entry(j).de != Entry(35).de {}
  lemma DeUniqueAfter36() ensures forall j | 36 < j < SIZE :: Entry(j).de != Entry(36).de {}
  lemma DeUniqueAfter37() ensures forall j | 37 < j < SIZE :: Entry(j).de != Entry(37).de {}
  lemma DeUniqueAfter38() ensures forall j | 38 < j < SIZE :: Entry(j).de != Entry(38).de {}
  lemma DeUniqueAfter39() ensures forall j | 39 < j < SIZE :: Entry(j).de != Entry(39).de {}
  lemma DeUniqueAfter40() ensures forall j | 40 < j < SIZE :: Entry(j).de != Entry(40).de {}
  lemma DeUniqueAfter41() ensures forall j | 41 < j < SIZE :: Entry(j).de != Entry(41).de {}
  lemma DeUniqueAfter42() ensures forall j | 42 < j < SIZE :: Entry(j).de != Entry(42).de {}
  lemma DeUniqueAfter43() ensures forall j | 43 < j < SIZE :: Entry(j).de != Entry(43).de {}
  lemma DeUniqueAfter44() ensures forall j | 44 < j < SIZE :: Entry(j).de != Entry(44).de {}
  lemma DeUniqueAfter45() ensures forall j | 45 < j < SIZE :: Entry(j).de != Entry(45).de {}
  lemma DeUniqueAfter46() ensures forall j | 46 < j < SIZE :: Entry(j).de != Entry(46).de {}
  lemma DeUniqueAfter47() ensures forall j | 47 < j < SIZE :: Entry(j).de != Entry(47).de {}
  lemma DeUniqueAfter48() ensures forall j | 48 < j < SIZE :: Entry(j).de != Entry(48).de {}
  lemma DeUniqueAfter49() ensures forall j | 49 < j < SIZE :: Entry(j).de != Entry(49).de {}
  lemma DeUniqueAfter50() ensures forall j | 50 < j < SIZE :: Entry(j).de != Entry(50).de {}
  lemma DeUniqueAfter51() ensures forall j | 51 < j < SIZE :: Entry(j).de != Entry(51).de {}
  lemma DeUniqueAfter52() ensures forall j | 52 < j < SIZE :: Entry(j).de != Entry(52).de {}
  lemma DeUniqueAfter53() ensures forall j | 53 < j < SIZE :: Entry(j).de != Entry(53).de {}
  lemma DeUniqueAfter54() ensures forall j | 54 < j < SIZE :: Entry(j).de != Entry(54).de {}
  lemma DeUniqueAfter55() ensures forall j | 55 < j < SIZE :: Entry(j).de != Entry(55).de {}
  lemma DeUniqueAfter56() ensures forall j | 56 < j < SIZE :: Entry(j).de != Entry(56).de {}
  lemma DeUniqueAfter57() ensures forall j | 57 < j < SIZE :: Entry(j).de != Entry(57).de {}
  lemma DeUniqueAfter58() ensures forall j | 58 < j < SIZE :: Entry(j).de != Entry(58).de {}
  lemma DeUniqueAfter59() ensures forall j | 59 < j < SIZE :: Entry(j).de != Entry(59).de {}
  lemma DeUniqueAfter60() ensures forall j | 60 < j < SIZE :: Entry(j).de != Entry(60).de {}
  lemma DeUniqueAfter61() ensures forall j | 61 < j < SIZE :: Entry(j).de != Entry(61).de {}
  lemma DeUniqueAfter62() ensures forall j | 62 < j < SIZE :: Entry(j).de != Entry(62).de {}
  lemma DeUniqueAfter63() ensures forall j | 63 < j < SIZE :: Entry(j).de != Entry(63).de {}
  lemma DeUniqueAfter64() ensures forall j | 64 < j < SIZE :: Entry(j).de != Entry(64).de {}
  lemma DeUniqueAfter65() ensures forall j | 65 < j < SIZE :: Entry(j).de != Entry(65).de {}
  lemma DeUniqueAfter66() ensures forall j | 66 < j < SIZE :: Entry(j).de != Entry(66).de {}
  lemma DeUniqueAfter67() ensures forall j | 67 < j < SIZE :: Entry(j).de != Entry(67).de {}
  lemma DeUniqueAfter68() ensures forall j | 68 < j < SIZE :: Entry(j).de != Entry(68).de {}
  lemma DeUniqueAfter69() ensures forall j | 69 < j < SIZE :: Entry(j).de != Entry(69).de {}
  lemma DeUniqueAfter70() ensures forall j | 70 < j < SIZE :: Entry(j).de != Entry(70).de {}
  lemma DeUniqueAfter71() ensures forall j | 71 < j < SIZE :: Entry(j).de != Entry(71).de {}
  lemma DeUniqueAfter72() ensures forall j | 72 < j < SIZE :: Entry(j).de != Entry(72).de {}
  lemma DeUniqueAfter73() ensures forall j | 73 < j < SIZE :: Entry(j).de != Entry(73).de {}
  lemma DeUniqueAfter74() ensures forall j | 74 < j < SIZE :: Entry(j).de != Entry(74).de {}
  lemma DeUniqueAfter75() ensures forall j | 75 < j < SIZE :: Entry(j).de != Entry(75).de {}
  lemma DeUniqueAfter76() ensures forall j | 76 < j < SIZE :: Entry(j).de != Entry(76).de {}
  lemma DeUniqueAfter77() ensures forall j | 77 < j < SIZE :: Entry(j).de != Entry(77).de {}
  lemma DeUniqueAfter78() ensures forall j | 78 < j < SIZE :: Entry(j).de != Entry(78).de {}
  lemma DeUniqueAfter79() ensures forall j | 79 < j < SIZE :: Entry(j).de != Entry(79).de {}
  lemma DeUniqueAfter80() ensures forall j | 80 < j < SIZE :: Entry(j).de != Entry(80).de {}
  lemma DeUniqueAfter81() ensures forall j | 81 < j < SIZE :: Entry(j).de != Entry(81).de {}
  lemma DeUniqueAfter82() ensures forall j | 82 < j < SIZE :: Entry(j).de != Entry(82).de {}
  lemma DeUniqueAfter83() ensures forall j | 83 < j < SIZE :: Entry(j).de != Entry(83).de {}
  lemma DeUniqueAfter84() ensures forall j | 84 < j < SIZE :: Entry(j).de != Entry(84).de {}
  lemma DeUniqueAfter85() ensures forall j | 85 < j < SIZE :: Entry(j).de != Entry(85).de {}
  lemma DeUniqueAfter86() ensures forall j | 86 < j < SIZE :: Entry(j).de != Entry(86).de {}
  lemma DeUniqueAfter87() ensures forall j | 87 < j < SIZE :: Entry(j).de != Entry(87).de {}
  lemma DeUniqueAfter88() ensures forall j | 88 < j < SIZE :: Entry(j).de != Entry(88).de {}
  lemma DeUniqueAfter89() ensures forall j | 89 < j < SIZE :: Entry(j).de != Entry(89).de {}
  lemma DeUniqueAfter90() ensures forall j | 90 < j < SIZE :: Entry(j).de != Entry(90).de {}

  /** No two rows share an English name. */
  lemma EnNamesDistinct()
    ensures forall i, j | 0 <= i < SIZE && 0 <= j < SIZE && i != j :: Entry(i).en != Entry(j).en
  {
    forall i | 0 <= i < SIZE
      ensures forall j | i < j < SIZE :: Entry(j).en != Entry(i).en
    {
      if i < 46 { EnUniqueLow(i); } else { EnUniqueHigh(i); }
    }
  }

  lemma EnUniqueLow(i: nat)
    requires 0 <= i < 46
    ensures forall j | i < j < SIZE :: Entry(j).en != Entry(i).en
  {
    if i == 0 { EnUniqueAfter0(); }
    else if i == 1 { EnUniqueAfter1(); }
    else if i == 2 { EnUniqueAfter2(); }
    else if i == 3 { EnUniqueAfter3(); }
    else if i == 4 { EnUniqueAfter4(); }
    else if i == 5 { EnUniqueAfter5(); }
    else if i == 6 { EnUniqueAfter6(); }
    else if i == 7 { EnUniqueAfter7(); }
    else if i == 8 { EnUniqueAfter8(); }
    else if i == 9 { EnUniqueAfter9(); }
    else if i == 10 { EnUniqueAfter10(); }
    else if i == 11 { EnUniqueAfter11(); }
    else if i == 12 { EnUniqueAfter12(); }
    else if i == 13 { EnUniqueAfter13(); }
    else if i == 14 { EnUniqueAfter14(); }
    else if i == 15 { EnUniqueAfter15(); }
    else if i == 16 { EnUniqueAfter16(); }
    else if i == 17 { EnUniqueAfter17(); }
    else if i == 18 { EnUniqueAfter18(); }
    else if i == 19 { EnUniqueAfter19(); }
    else if i == 20 { EnUniqueAfter20(); }
    else if i == 21 { EnUniqueAfter21(); }
    else if i == 22 { EnUniqueAfter22(); }
    else if i == 23 { EnUniqueAfter23(); }
    else if i == 24 { EnUniqueAfter24(); }
    else if i == 25 { EnUniqueAfter25(); }
    else if i == 26 { EnUniqueAfter26(); }
    else if i == 27 { EnUniqueAfter27(); }
    else if i == 28 { EnUniqueAfter28(); }
    else if i == 29 { EnUniqueAfter29(); }
    else if i == 30 { EnUniqueAfter30(); }
    else if i == 31 { EnUniqueAfter31(); }
    else if i == 32 { EnUniqueAfter32(); }
    else if i == 33 { EnUniqueAfter33(); }
    else if i == 34 { EnUniqueAfter34(); }
    else if i == 35 { EnUniqueAfter35(); }
    else if i == 36 { EnUniqueAfter36(); }
    else if i == 37 { EnUniqueAfter37(); }
    else if i == 38 { EnUniqueAfter38(); }
    else if i == 39 { EnUniqueAfter39(); }
    else if i == 40 { EnUniqueAfter40(); }
    else if i == 41 { EnUniqueAfter41(); }
    else if i == 42 { EnUniqueAfter42(); }
    else if i == 43 { EnUniqueAfter43(); }
    else if i == 44 { EnUniqueAfter44(); }
    else if i == 45 { EnUniqueAfter45(); }
  }

  lemma EnUniqueHigh(i: nat)
    requires 46 <= i < 92
    ensures forall j | i < j < SIZE :: Entry(j).en != Entry(i).en
  {
    if i == 46 { EnUniqueAfter46(); }
    else if i == 47 { EnUniqueAfter47(); }
    else if i == 48 { EnUniqueAfter48(); }
    else if i == 49 { EnUniqueAfter49(); }
    else if i == 50 { EnUniqueAfter50(); }
    else if i == 51 { EnUniqueAfter51(); }
    else if i == 52 { EnUniqueAfter52(); }
    else if i == 53 { EnUniqueAfter53(); }
    else if i == 54 { EnUniqueAfter54(); }
    else if i == 55 { EnUniqueAfter55(); }
    else if i == 56 { EnUniqueAfter56(); }
    else if i == 57 { EnUniqueAfter57(); }
    else if i == 58 { EnUniqueAfter58(); }
    else if i == 59 { EnUniqueAfter59(); }
    else if i == 60 { EnUniqueAfter60(); }
    else if i == 61 { EnUniqueAfter61(); }
    else if i == 62 { EnUniqueAfter62(); }
    else if i == 63 { EnUniqueAfter63(); }
    else if i == 64 { EnUniqueAfter64(); }
    else if i == 65 { EnUniqueAfter65(); }
    else if i == 66 { EnUniqueAfter66(); }
    else if i == 67 { EnUniqueAfter67(); }
    else if i == 68 { EnUniqueAfter68(); }
    else if i == 69 { EnUniqueAfter69(); }
    else if i == 70 { EnUniqueAfter70(); }
    else if i == 71 { EnUniqueAfter71(); }
    else if i == 72 { EnUniqueAfter72(); }
    else if i == 73 { EnUniqueAfter73(); }
    else if i == 74 { EnUniqueAfter74(); }
    else if i == 75 { EnUniqueAfter75(); }
    else if i == 76 { EnUniqueAfter76(); }
    else if i == 77 { EnUniqueAfter77(); }
    else if i == 78 { EnUniqueAfter78(); }
    else if i == 79 { EnUniqueAfter79(); }
    else if i == 80 { EnUniqueAfter80(); }
    else if i == 81 { EnUniqueAfter81(); }
    else if i == 82 { EnUniqueAfter82(); }
    else if i == 83 { EnUniqueAfter83(); }
    else if i == 84 { EnUniqueAfter84(); }
    else if i == 85 { EnUniqueAfter85(); }
    else if i == 86 { EnUniqueAfter86(); }
    else if i == 87 { EnUniqueAfter87(); }
    else if i == 88 { EnUniqueAfter88(); }
    else if i == 89 { EnUniqueAfter89(); }
    else if i == 90 { EnUniqueAfter90(); }
  }

  // Row by row: the English name of row i differs from that of every later row.

  lemma EnUniqueAfter0() ensures forall j | 0 < j < SIZE :: Entry(j).en != Entry(0).en {}
  lemma EnUniqueAfter1() ensures forall j | 1 < j < SIZE :: Entry(j).en != Entry(1).en {}
  lemma EnUniqueAfter2() ensures forall j | 2 < j < SIZE :: Entry(j).en != Entry(2).en {}
  lemma EnUniqueAfter3() ensures forall j | 3 < j < SIZE :: Entry(j).en != Entry(3).en {}
  lemma EnUniqueAfter4() ensures forall j | 4 < j < SIZE :: Entry(j).en != Entry(4).en {}
  lemma EnUniqueAfter5() ensures forall j | 5 < j < SIZE :: Entry(j).en != Entry(5).en {}
  lemma EnUniqueAfter6() ensures forall j | 6 < j < SIZE :: Entry(j).en != Entry(6).en {}
  lemma EnUniqueAfter7() ensures forall j | 7 < j < SIZE :: Entry(j).en != Entry(7).en {}
  lemma EnUniqueAfter8() ensures forall j | 8 < j < SIZE :: Entry(j).en != Entry(8).en {}
  lemma EnUniqueAfter9() ensures forall j | 9 < j < SIZE :: Entry(j).en != Entry(9).en {}
  lemma EnUniqueAfter10() ensures forall j | 10 < j < SIZE :: Entry(j).en != Entry(10).en {}
  lemma EnUniqueAfter11() ensures forall j | 11 < j < SIZE :: Entry(j).en != Entry(11).en {}
  lemma EnUniqueAfter12() ensures forall j | 12 < j < SIZE :: Entry(j).en != Entry(12).en {}
  lemma EnUniqueAfter13() ensures forall j | 13 < j < SIZE :: Entry(j).en != Entry(13).en {}
  lemma EnUniqueAfter14() ensures forall j | 14 < j < SIZE :: Entry(j).en != Entry(14).en {}
  lemma EnUniqueAfter15() ensures forall j | 15 < j < SIZE :: Entry(j).en != Entry(15).en {}
  lemma EnUniqueAfter16() ensures forall j | 16 < j < SIZE :: Entry(j).en != Entry(16).en {}
  lemma EnUniqueAfter17() ensures forall j | 17 < j < SIZE :: Entry(j).en != Entry(17).en {}
  lemma EnUniqueAfter18() ensures forall j | 18 < j < SIZE :: Entry(j).en != Entry(18).en {}
  lemma EnUniqueAfter19() ensures forall j | 19 < j < SIZE :: Entry(j).en != Entry(19).en {}
  lemma EnUniqueAfter20() ensures forall j | 20 < j < SIZE :: Entry(j).en != Entry(20).en {}
  lemma EnUniqueAfter21() ensures forall j | 21 < j < SIZE :: Entry(j).en != Entry(21).en {}
  lemma EnUniqueAfter22() ensures forall j | 22 < j < SIZE :: Entry(j).en != Entry(22).en {}
  lemma EnUniqueAfter23() ensures forall j | 23 < j < SIZE :: Entry(j).en != Entry(23).en {}
  lemma EnUniqueAfter24() ensures forall j | 24 < j < SIZE :: Entry(j).en != Entry(24).en {}
  lemma EnUniqueAfter25() ensures forall j | 25 < j < SIZE :: Entry(j).en != Entry(25).en {}
  lemma EnUniqueAfter26() ensures forall j | 26 < j < SIZE :: Entry(j).en != Entry(26).en {}
  lemma EnUniqueAfter27() ensures forall j | 27 < j < SIZE :: Entry(j).en != Entry(27).en {}
  lemma EnUniqueAfter28() ensures forall j | 28 < j < SIZE :: Entry(j).en != Entry(28).en {}
  lemma EnUniqueAfter29() ensures forall j | 29 < j < SIZE :: Entry(j).en != Entry(29).en {}
  lemma EnUniqueAfter30() ensures forall j | 30 < j < SIZE :: Entry(j).en != Entry(30).en {}
  lemma EnUniqueAfter31() ensures forall j | 31 < j < SIZE :: Entry(j).en != Entry(31).en {}
  lemma EnUniqueAfter32() ensures forall j | 32 < j < SIZE :: Entry(j).en != Entry(32).en {}
  lemma EnUniqueAfter33() ensures forall j | 33 < j < SIZE :: Entry(j).en != Entry(33).en {}
  lemma EnUniqueAfter34() ensures forall j | 34 < j < SIZE :: Entry(j).en != Entry(34).en {}
  lemma EnUniqueAfter35() ensures forall j | 35 < j < SIZE :: Entry(j).en != Entry(35).en {}
  lemma EnUniqueAfter36() ensures forall j | 36 < j < SIZE :: Entry(j).en != Entry(36).en {}
  lemma EnUniqueAfter37() ensures forall j | 37 < j < SIZE :: Entry(j).en != Entry(37).en {}
  lemma EnUniqueAfter38() ensures forall j | 38 < j < SIZE :: Entry(j).en != Entry(38).en {}
  lemma EnUniqueAfter39() ensures forall j | 39 < j < SIZE :: Entry(j).en != Entry(39).en {}
  lemma EnUniqueAfter40() ensures forall j | 40 < j < SIZE :: Entry(j).en != Entry(40).en {}
  lemma EnUniqueAfter41() ensures forall j | 41 < j < SIZE :: Entry(j).en != Entry(41).en {}
  lemma EnUniqueAfter42() ensures forall j | 42 < j < SIZE :: Entry(j).en != Entry(42).en {}
  lemma EnUniqueAfter43() ensures forall j | 43 < j < SIZE :: Entry(j).en != Entry(43).en {}
  lemma EnUniqueAfter44() ensures forall j | 44 < j < SIZE :: Entry(j).en != Entry(44).en {}
  lemma EnUniqueAfter45() ensures forall j | 45 < j < SIZE :: Entry(j).en != Entry(45).en {}
  lemma EnUniqueAfter46() ensures forall j | 46 < j < SIZE :: Entry(j).en != Entry(46).en {}
  lemma EnUniqueAfter47() ensures forall j | 47 < j < SIZE :: Entry(j).en != Entry(47).en {}
  lemma EnUniqueAfter48() ensures forall j | 48 < j < SIZE :: Entry(j).en != Entry(48).en {}
  lemma EnUniqueAfter49() ensures forall j | 49 < j < SIZE :: Entry(j).en != Entry(49).en {}
  lemma EnUniqueAfter50() ensures forall j | 50 < j < SIZE :: Entry(j).en != Entry(50).en {}
  lemma EnUniqueAfter51() ensures forall j | 51 < j < SIZE :: Entry(j).en != Entry(51).en {}
  lemma EnUniqueAfter52() ensures forall j | 52 < j < SIZE :: Entry(j).en != Entry(52).en {}
  lemma EnUniqueAfter53() ensures forall j | 53 < j < SIZE :: Entry(j).en != Entry(53).en {}
  lemma EnUniqueAfter54() ensures forall j | 54 < j < SIZE :: Entry(j).en != Entry(54).en {}
  lemma EnUniqueAfter55() ensures forall j | 55 < j < SIZE :: Entry(j).en != Entry(55).en {}
  lemma EnUniqueAfter56() ensures forall j | 56 < j < SIZE :: Entry(j).en != Entry(56).en {}
  lemma EnUniqueAfter57() ensures forall j | 57 < j < SIZE :: Entry(j).en != Entry(57).en {}
  lemma EnUniqueAfter58() ensures forall j | 58 < j < SIZE :: Entry(j).en != Entry(58).en {}
  lemma EnUniqueAfter59() ensures forall j | 59 < j < SIZE :: Entry(j).en != Entry(59).en {}
  lemma EnUniqueAfter60() ensures forall j | 60 < j < SIZE :: Entry(j).en != Entry(60).en {}
  lemma EnUniqueAfter61() ensures forall j | 61 < j < SIZE :: Entry(j).en != Entry(61).en {}
  lemma EnUniqueAfter62() ensures forall j | 62 < j < SIZE :: Entry(j).en != Entry(62).en {}
  lemma EnUniqueAfter63() ensures forall j | 63 < j < SIZE :: Entry(j).en != Entry(63).en {}
  lemma EnUniqueAfter64() ensures forall j | 64 < j < SIZE :: Entry(j).en != Entry(64).en {}
  lemma EnUniqueAfter65() ensures forall j | 65 < j < SIZE :: Entry(j).en != Entry(65).en {}
  lemma EnUniqueAfter66() ensures forall j | 66 < j < SIZE :: Entry(j).en != Entry(66).en {}
  lemma EnUniqueAfter67() ensures forall j | 67 < j < SIZE :: Entry(j).en != Entry(67).en {}
  lemma EnUniqueAfter68() ensures forall j | 68 < j < SIZE :: Entry(j).en != Entry(68).en {}
  lemma EnUniqueAfter69() ensures forall j | 69 < j < SIZE :: Entry(j).en != Entry(69).en {}
  lemma EnUniqueAfter70() ensures forall j | 70 < j < SIZE :: Entry(j).en != Entry(70).en {}
  lemma EnUniqueAfter71() ensures forall j | 71 < j < SIZE :: Entry(j).en != Entry(71).en {}
  lemma EnUniqueAfter72() ensures forall j | 72 < j < SIZE :: Entry(j).en != Entry(72).en {}
  lemma EnUniqueAfter73() ensures forall j | 73 < j < SIZE :: Entry(j).en != Entry(73).en {}
  lemma EnUniqueAfter74() ensures forall j | 74 < j < SIZE :: Entry(j).en != Entry(74).en {}
  lemma EnUniqueAfter75() ensures forall j | 75 < j < SIZE :: Entry(j).en != Entry(75).en {}
  lemma EnUniqueAfter76() ensures forall j | 76 < j < SIZE :: Entry(j).en != Entry(76).en {}
  lemma EnUniqueAfter77() ensures forall j | 77 < j < SIZE :: Entry(j).en != Entry(77).en {}
  lemma EnUniqueAfter78() ensures forall j | 78 < j < SIZE :: Entry(j).en != Entry(78).en {}
  lemma EnUniqueAfter79() ensures forall j | 79 < j < SIZE :: Entry(j).en != Entry(79).en {}
  lemma EnUniqueAfter80() ensures forall j | 80 < j < SIZE :: Entry(j).en != Entry(80).en {}
  lemma EnUniqueAfter81() ensures forall j | 81 < j < SIZE :: Entry(j).en != Entry(81).en {}
  lemma EnUniqueAfter82() ensures forall j | 82 < j < SIZE :: Entry(j).en != Entry(82).en {}
  lemma EnUniqueAfter83() ensures forall j | 83 < j < SIZE :: Entry(j).en != Entry(83).en {}
  lemma EnUniqueAfter84() ensures forall j | 84 < j < SIZE :: Entry(j).en != Entry(84).en {}
  lemma EnUniqueAfter85() ensures forall j | 85 < j < SIZE :: Entry(j).en != Entry(85).en {}
  lemma EnUniqueAfter86() ensures forall j | 86 < j < SIZE :: Entry(j).en != Entry(86).en {}
  lemma EnUniqueAfter87() ensures forall j | 87 < j < SIZE :: Entry(j).en != Entry(87).en {}
  lemma EnUniqueAfter88() ensures forall j | 88 < j < SIZE :: Entry(j).en != Entry(88).en {}
  lemma EnUniqueAfter89() ensures forall j | 89 < j < SIZE :: Entry(j).en != Entry(89).en {}
  lemma EnUniqueAfter90() ensures forall j | 90 < j < SIZE :: Entry(j).en != Entry(90).en {}

}

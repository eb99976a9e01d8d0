/**
 * One seat of a saved game: the player's identity and flags, its element
 * pairs (resource amounts, knights, pieces left, warships), its development
 * cards split by inventory state, its pieces and its fortress.
 */
module SaveGamePlayer {
  import opened Wrappers
  import opened SocGame

  /** The saved form of one seat, vacant or not. */
  datatype PlayerInfo = PlayerInfo(
    name: Option<string>,
    isSeatVacant: bool,
    totalVP: int,
    isRobot: bool,
    isBuiltInRobot: bool,
    faceID: int,
    /** (element type, value) pairs, flattened */
    elements: seq<int>,
    /** dev card types from the PLAYABLE and KEPT states */
    oldDevCards: seq<int>,
    /** dev card types from the NEW state */
    newDevCards: seq<int>,
    pieces: seq<PlayingPiece>,
    fortressPiece: Option<PlayingPiece>)

  /**
   * The first piece type counted: ships exist only on a sea board, cities
   * and everything below them on every board.
   */
  function StartPieceType(hasSeaBoard: bool): (r: int)
    ensures CITY <= r <= SHIP
    ensures r == SHIP <==> hasSeaBoard
  {
    if hasSeaBoard then SHIP else CITY
  }

  /**
   * The element tag that every piece-count pair carries: the count element
   * of the first piece type counted, never ROADS or SETTLEMENTS.
   */
  function PieceCountTag(hasSeaBoard: bool): (r: int)
    ensures r == ROADS + StartPieceType(hasSeaBoard)
    ensures r != ROADS && r != SETTLEMENTS
  {
    if hasSeaBoard then SHIPS else CITIES
  }

  /** Pairs (rtype, amount) for the resource types CLAY .. hi - 1, ascending. */
  function ResourcePairs(res: ResourceSet, hi: int): (r: seq<int>)
    requires CLAY <= hi <= UNKNOWN + 1
    ensures |r| == 2 * (hi - CLAY)
    decreases hi
  {
    if hi == CLAY then [] else ResourcePairs(res, hi - 1) + [hi - 1, res.GetAmount(hi - 1)]
  }

  /** Pairs (etype, count) for the piece types top down to lo + 1, descending; etype is the same in every pair. */
  function PiecePairs(counts: PieceCounts, etype: int, top: int, lo: int): (r: seq<int>)
    requires ROAD - 1 <= lo <= top <= SHIP
    ensures |r| == 2 * (top - lo)
    decreases top - lo
  {
    if lo == top then [] else PiecePairs(counts, etype, top, lo + 1) + [etype, counts.NumPieces(lo + 1)]
  }

  /** The warship pair (SCENARIO_WARSHIP_COUNT, n), omitted when n is 0. */
  function WarshipPairs(n: int): (r: seq<int>)
    ensures |r| % 2 == 0
    ensures r == [] <==> n == 0
    ensures n != 0 ==> |r| == 2
    ensures r != [] ==> r[0] == SCENARIO_WARSHIP_COUNT && r[|r| - 1] == n
  {
    if n != 0 then [SCENARIO_WARSHIP_COUNT, n] else []
  }

  /** The whole element list of a player on a board with or without sea. */
  function ElementsOf(pl: Player, hasSeaBoard: bool): (r: seq<int>)
    ensures |r| % 2 == 0
  {
    ResourcePairs(pl.resources, UNKNOWN + 1)
      + [NUMKNIGHTS, pl.numKnights]
      + PiecePairs(pl.numPieces, PieceCountTag(hasSeaBoard), StartPieceType(hasSeaBoard), ROAD - 1)
      + WarshipPairs(pl.numWarships)
  }

  /** The types of the development cards among items, in list order; other item kinds are skipped. */
  function DevCardTypes(items: seq<InventoryItem>): (r: seq<int>)
    ensures |r| <= |items|
    ensures (forall i :: 0 <= i < |items| ==> items[i].isDevCard) ==> |r| == |items|
  {
    if items == [] then []
    else
      var last := items[|items| - 1];
      DevCardTypes(items[..|items| - 1]) + (if last.isDevCard then [last.itype] else [])
  }

  /**
   * Dev card types of the states PLAYABLE .. hi - 1, state by state: with
   * both states, the dev cards among the PLAYABLE items followed by the
   * KEPT items.
   */
  function OldDevCardTypes(inv: Inventory, hi: int): (r: seq<int>)
    requires PLAYABLE <= hi <= KEPT + 1
    ensures hi == PLAYABLE + 1 ==> r == DevCardTypes(inv.playables)
    ensures hi == KEPT + 1 ==> r == DevCardTypes(inv.playables + inv.kept)
    decreases hi
  {
    if hi == PLAYABLE then []
    else
      DevCardTypesConcat(inv.playables, inv.kept);
      OldDevCardTypes(inv, hi - 1) + DevCardTypes(inv.GetByState(hi - 1))
  }

  /** The specification of a seat's capture. */
  function PlayerInfoOf(pl: Player, isVacant: bool, hasSeaBoard: bool): (r: PlayerInfo)
    ensures r.isSeatVacant == isVacant
    ensures |r.elements| % 2 == 0
    ensures |r.newDevCards| <= |pl.inventory.GetByState(NEW)|
    ensures r.pieces == pl.pieces && r.fortressPiece == pl.fortress
    ensures pl.Valid() ==> forall p :: p in r.pieces ==> p.ptype != FORTRESS
  {
    PlayerInfo(pl.name, isVacant, pl.totalVP, pl.isRobot, pl.isBuiltInRobot, pl.faceId,
               ElementsOf(pl, hasSeaBoard),
               OldDevCardTypes(pl.inventory, KEPT + 1),
               DevCardTypes(pl.inventory.GetByState(NEW)),
               pl.pieces, pl.fortress)
  }

  /** Appends the dev card types among items to acc, skipping other item kinds. */
  method AppendDevCardTypes(acc: seq<int>, items: seq<InventoryItem>) returns (r: seq<int>)
    ensures r == acc + DevCardTypes(items)
  {
    r := acc;
    for i := 0 to |items|
      invariant r == acc + DevCardTypes(items[..i])
    {
      if items[i].isDevCard {
        r := r + [items[i].itype];
      }
      assert items[..i + 1][..i] == items[..i];
    }
    assert items[..|items|] == items;
  }

  /** Capture of one seat, building its lists step by step. */
  method CapturePlayer(pl: Player, isVacant: bool, hasSeaBoard: bool) returns (info: PlayerInfo)
    ensures info == PlayerInfoOf(pl, isVacant, hasSeaBoard)
    ensures |info.elements| % 2 == 0
  {
    var elements := CaptureElements(pl, hasSeaBoard);

    var cardsInv := pl.inventory;
    var newDevCards := AppendDevCardTypes([], cardsInv.GetByState(NEW));
    var oldDevCards: seq<int> := [];
    for dcState := PLAYABLE to KEPT + 1
      invariant oldDevCards == OldDevCardTypes(cardsInv, dcState)
    {
      oldDevCards := AppendDevCardTypes(oldDevCards, cardsInv.GetByState(dcState));
    }

    info := PlayerInfo(pl.name, isVacant, pl.totalVP, pl.isRobot, pl.isBuiltInRobot, pl.faceId,
                       elements, oldDevCards, newDevCards, pl.pieces, pl.fortress);
  }

  /** The element pairs of a seat: resources, knights, piece counts, warships. */
  method CaptureElements(pl: Player, hasSeaBoard: bool) returns (elements: seq<int>)
    ensures elements == ElementsOf(pl, hasSeaBoard)
  {
    elements := [];
    var res := pl.resources;
    for rtype := CLAY to UNKNOWN + 1
      invariant elements == ResourcePairs(res, rtype)
    {
      elements := elements + [rtype, res.GetAmount(rtype)];
    }
    elements := elements + [NUMKNIGHTS, pl.numKnights];

    var ptype := if hasSeaBoard then SHIP else CITY;
    var etype := if hasSeaBoard then SHIPS else CITIES;
    ghost var beforePieces := elements;
    while ptype >= ROAD
      invariant ROAD - 1 <= ptype <= StartPieceType(hasSeaBoard)
      invariant elements == beforePieces + PiecePairs(pl.numPieces, etype, StartPieceType(hasSeaBoard), ptype)
    {
      elements := elements + [etype, pl.numPieces.NumPieces(ptype)];
      ptype := ptype - 1;
    }
    var n := pl.numWarships;
    if n != 0 {
      elements := elements + [SCENARIO_WARSHIP_COUNT, n];
    }
  }

  // ----- The order of the element pairs -----

  lemma {:induction false} ResourcePairsLayout(res: ResourceSet, hi: int)
    requires CLAY <= hi <= UNKNOWN + 1
    ensures forall k :: 0 <= k < |ResourcePairs(res, hi)| ==>
      ResourcePairs(res, hi)[k] == if k % 2 == 0 then CLAY + k / 2 else res.GetAmount(CLAY + k / 2)
    decreases hi
  {
    if hi > CLAY {
      ResourcePairsLayout(res, hi - 1);
    }
  }

  lemma {:induction false} PiecePairsLayout(counts: PieceCounts, etype: int, top: int, lo: int)
    requires ROAD - 1 <= lo <= top <= SHIP
    ensures forall k :: 0 <= k < |PiecePairs(counts, etype, top, lo)| ==>
      PiecePairs(counts, etype, top, lo)[k] == if k % 2 == 0 then etype else counts.NumPieces(top - k / 2)
    decreases top - lo
  {
    if lo < top {
      PiecePairsLayout(counts, etype, top, lo + 1);
    }
  }

  /** Entries taken by the resource pairs: two per resource type CLAY .. UNKNOWN. */
  const RESOURCE_ENTRIES := 2 * (UNKNOWN - CLAY + 1)

  /**
   * The element list of a seat: one (rtype, amount) pair per resource type
   * from CLAY to UNKNOWN, then (NUMKNIGHTS, knights), then one pair per piece
   * type from SHIP (sea board) or CITY down to ROAD, each tagged with the
   * same element type, then (SCENARIO_WARSHIP_COUNT, n) only when n is not zero.
   */
  lemma ElementsLayout(pl: Player, hasSeaBoard: bool)
    ensures var e := ElementsOf(pl, hasSeaBoard);
      var top := StartPieceType(hasSeaBoard);
      var pieceStart := RESOURCE_ENTRIES + 2;
      var pieceEnd := pieceStart + 2 * (top - ROAD + 1);
      && |e| == pieceEnd + (if pl.numWarships != 0 then 2 else 0)
      && (forall k :: 0 <= k < RESOURCE_ENTRIES ==>
            e[k] == if k % 2 == 0 then CLAY + k / 2 else pl.resources.GetAmount(CLAY + k / 2))
      && e[RESOURCE_ENTRIES] == NUMKNIGHTS && e[RESOURCE_ENTRIES + 1] == pl.numKnights
      && (forall k :: pieceStart <= k < pieceEnd ==>
            e[k] == if (k - pieceStart) % 2 == 0 then PieceCountTag(hasSeaBoard)
                    else pl.numPieces.NumPieces(top - (k - pieceStart) / 2))
      && (pl.numWarships != 0 ==> e[|e| - 2] == SCENARIO_WARSHIP_COUNT && e[|e| - 1] == pl.numWarships)
  {
    var top := StartPieceType(hasSeaBoard);
    var pieceStart := RESOURCE_ENTRIES + 2;
    var rp := ResourcePairs(pl.resources, UNKNOWN + 1);
    var pp := PiecePairs(pl.numPieces, PieceCountTag(hasSeaBoard), top, ROAD - 1);
    ResourcePairsLayout(pl.resources, UNKNOWN + 1);
    PiecePairsLayout(pl.numPieces, PieceCountTag(hasSeaBoard), top, ROAD - 1);
    var e := ElementsOf(pl, hasSeaBoard);
    assert e == rp + [NUMKNIGHTS, pl.numKnights] + pp + WarshipPairs(pl.numWarships);
    forall k | pieceStart <= k < pieceStart + 2 * (top - ROAD + 1)
      ensures e[k] == if (k - pieceStart) % 2 == 0 then PieceCountTag(hasSeaBoard)
                      else pl.numPieces.NumPieces(top - (k - pieceStart) / 2)
    {
      assert e[k] == pp[k - pieceStart];
    }
  }

  // ----- Reading the pairs back -----

  /**
   * The element values a reader obtains by applying the pairs in order,
   * each pair setting its element type to its value.
   */
  function ApplyElements(elements: seq<int>): (r: map<int, int>)
    requires |elements| % 2 == 0
    decreases |elements|
  {
    if elements == [] then map[]
    else ApplyElements(elements[..|elements| - 2])[elements[|elements| - 2] := elements[|elements| - 1]]
  }

  lemma {:induction false} ApplyElementsConcat(a: seq<int>, b: seq<int>)
    requires |a| % 2 == 0 && |b| % 2 == 0
    ensures ApplyElements(a + b) == ApplyElements(a) + ApplyElements(b)
    decreases |b|
  {
    if b == [] {
      assert a + b == a;
    } else {
      var b' := b[..|b| - 2];
      assert (a + b)[..|a + b| - 2] == a + b';
      ApplyElementsConcat(a, b');
    }
  }

  /** Applying one more pair overrides the value of its element type. */
  lemma ApplyElementsSnoc(s: seq<int>, etype: int, value: int, longer: seq<int>)
    requires |s| % 2 == 0 && longer == s + [etype, value]
    ensures ApplyElements(longer) == ApplyElements(s)[etype := value]
  {
    assert longer[..|s|] == s;
  }

  /** The resource part of what a reader recovers: each type CLAY .. hi - 1 set to its amount. */
  function ResourceMap(res: ResourceSet, hi: int): (r: map<int, int>)
    requires CLAY <= hi <= UNKNOWN + 1
    decreases hi
  {
    if hi == CLAY then map[] else ResourceMap(res, hi - 1)[hi - 1 := res.GetAmount(hi - 1)]
  }

  /** The resource map holds exactly the types CLAY .. hi - 1, each with its amount. */
  lemma {:induction false} ResourceMapContents(res: ResourceSet, hi: int)
    requires CLAY <= hi <= UNKNOWN + 1
    ensures forall t :: t in ResourceMap(res, hi) <==> CLAY <= t < hi
    ensures forall t :: t in ResourceMap(res, hi) ==> ResourceMap(res, hi)[t] == res.GetAmount(t)
    decreases hi
  {
    if hi > CLAY {
      ResourceMapContents(res, hi - 1);
    }
  }

  /**
   * Applying the resource pairs of all types CLAY .. UNKNOWN gives exactly
   * the resource map, built up one resource type at a time.
   */
  lemma ApplyResourcePairs(res: ResourceSet)
    ensures ApplyElements(ResourcePairs(res, UNKNOWN + 1)) == ResourceMap(res, UNKNOWN + 1)
  {
    assert ResourcePairs(res, CLAY) == [];
    ApplyResourcePairsStep(res, CLAY + 1);
    ApplyResourcePairsStep(res, CLAY + 2);
    ApplyResourcePairsStep(res, CLAY + 3);
    ApplyResourcePairsStep(res, CLAY + 4);
    ApplyResourcePairsStep(res, CLAY + 5);
    ApplyResourcePairsStep(res, CLAY + 6);
  }

  /** One more resource pair extends the map read back by that resource type. */
  lemma ApplyResourcePairsStep(res: ResourceSet, hi: int)
    requires CLAY < hi <= UNKNOWN + 1
    requires ApplyElements(ResourcePairs(res, hi - 1)) == ResourceMap(res, hi - 1)
    ensures ApplyElements(ResourcePairs(res, hi)) == ResourceMap(res, hi)
  {
    ApplyElementsSnoc(ResourcePairs(res, hi - 1), hi - 1, res.GetAmount(hi - 1), ResourcePairs(res, hi));
  }

  /**
   * Every piece-count pair carries the same tag, so reading them back leaves
   * one entry: the count of the last piece type written.
   */
  lemma {:induction false} ApplyPiecePairs(counts: PieceCounts, etype: int, top: int, lo: int)
    requires ROAD - 1 <= lo < top <= SHIP
    ensures ApplyElements(PiecePairs(counts, etype, top, lo)) == map[etype := counts.NumPieces(lo + 1)]
    decreases top - lo
  {
    if lo + 1 < top {
      ApplyPiecePairs(counts, etype, top, lo + 1);
    }
    ApplyPiecePairsStep(counts, etype, top, lo);
  }

  lemma ApplyPiecePairsStep(counts: PieceCounts, etype: int, top: int, lo: int)
    requires ROAD - 1 <= lo < top <= SHIP
    ensures ApplyElements(PiecePairs(counts, etype, top, lo))
      == ApplyElements(PiecePairs(counts, etype, top, lo + 1))[etype := counts.NumPieces(lo + 1)]
  {
    ApplyElementsSnoc(PiecePairs(counts, etype, top, lo + 1), etype, counts.NumPieces(lo + 1),
                      PiecePairs(counts, etype, top, lo));
  }

  /** What a reader recovers, section by section: resources, knights, the piece tag, warships. */
  function SectionsMap(pl: Player, hasSeaBoard: bool): (r: map<int, int>)
  {
    ResourceMap(pl.resources, UNKNOWN + 1)
      + map[NUMKNIGHTS := pl.numKnights]
      + map[PieceCountTag(hasSeaBoard) := pl.numPieces.NumPieces(ROAD)]
      + (if pl.numWarships != 0 then map[SCENARIO_WARSHIP_COUNT := pl.numWarships] else map[])
  }

  /** Applying a seat's pairs section by section. */
  lemma AppliedSections(pl: Player, hasSeaBoard: bool)
    ensures ApplyElements(ElementsOf(pl, hasSeaBoard)) == SectionsMap(pl, hasSeaBoard)
  {
    var tag := PieceCountTag(hasSeaBoard);
    var rp := ResourcePairs(pl.resources, UNKNOWN + 1);
    var kn := [NUMKNIGHTS, pl.numKnights];
    var pp := PiecePairs(pl.numPieces, tag, StartPieceType(hasSeaBoard), ROAD - 1);
    var wp := WarshipPairs(pl.numWarships);
    ApplyResourcePairs(pl.resources);
    ApplyPiecePairs(pl.numPieces, tag, StartPieceType(hasSeaBoard), ROAD - 1);
    ApplyElementsConcat(rp, kn);
    ApplyElementsConcat(rp + kn, pp);
    ApplyElementsConcat(rp + kn + pp, wp);
    assert kn[..0] == [];
    assert wp != [] ==> wp[..0] == [];
  }

  lemma SectionsMapContents(pl: Player, hasSeaBoard: bool)
    ensures var m := SectionsMap(pl, hasSeaBoard);
      var tag := PieceCountTag(hasSeaBoard);
      && (forall t :: CLAY <= t <= UNKNOWN ==> t in m && m[t] == pl.resources.GetAmount(t))
      && NUMKNIGHTS in m && m[NUMKNIGHTS] == pl.numKnights
      && tag in m && m[tag] == pl.numPieces.NumPieces(ROAD)
      && (SCENARIO_WARSHIP_COUNT in m <==> pl.numWarships != 0)
      && (SCENARIO_WARSHIP_COUNT in m ==> m[SCENARIO_WARSHIP_COUNT] == pl.numWarships)
      && ROADS !in m && SETTLEMENTS !in m
      && (forall t :: t in m <==>
            CLAY <= t <= UNKNOWN || t == NUMKNIGHTS || t == tag || (pl.numWarships != 0 && t == SCENARIO_WARSHIP_COUNT))
  {
    var tag := PieceCountTag(hasSeaBoard);
    var n := pl.numWarships;
    var mr := ResourceMap(pl.resources, UNKNOWN + 1);
    var mk := map[NUMKNIGHTS := pl.numKnights];
    var mp := map[tag := pl.numPieces.NumPieces(ROAD)];
    var mw: map<int, int> := if n != 0 then map[SCENARIO_WARSHIP_COUNT := n] else map[];
    ResourceMapContents(pl.resources, UNKNOWN + 1);
    var m := mr + mk + mp + mw;
    assert SectionsMap(pl, hasSeaBoard) == m;
    forall t
      ensures t in m <==> CLAY <= t <= UNKNOWN || t == NUMKNIGHTS || t == tag || (n != 0 && t == SCENARIO_WARSHIP_COUNT)
    {
      assert t in mr <==> CLAY <= t <= UNKNOWN;
    }
    forall t | CLAY <= t <= UNKNOWN
      ensures m[t] == pl.resources.GetAmount(t)
    {
      assert t in mr && t !in mk && t !in mp && t !in mw;
    }
  }

  /**
   * What a reader recovers from a seat's pairs: every resource amount, the
   * knights, the warships when there are any, and, under the one element
   * type every piece-count pair carries, the count of ROAD pieces, which is
   * written last. No pair is tagged ROADS or SETTLEMENTS, so those counts
   * are not recoverable.
   */
  lemma AppliedElements(pl: Player, hasSeaBoard: bool)
    ensures var m := ApplyElements(ElementsOf(pl, hasSeaBoard));
      var tag := PieceCountTag(hasSeaBoard);
      && (forall t :: CLAY <= t <= UNKNOWN ==> t in m && m[t] == pl.resources.GetAmount(t))
      && NUMKNIGHTS in m && m[NUMKNIGHTS] == pl.numKnights
      && tag in m && m[tag] == pl.numPieces.NumPieces(ROAD)
      && (SCENARIO_WARSHIP_COUNT in m <==> pl.numWarships != 0)
      && (SCENARIO_WARSHIP_COUNT in m ==> m[SCENARIO_WARSHIP_COUNT] == pl.numWarships)
      && ROADS !in m && SETTLEMENTS !in m
      && (forall t :: t in m <==>
            CLAY <= t <= UNKNOWN || t == NUMKNIGHTS || t == tag || (pl.numWarships != 0 && t == SCENARIO_WARSHIP_COUNT))
  {
    AppliedSections(pl, hasSeaBoard);
    SectionsMapContents(pl, hasSeaBoard);
  }

  // ----- Development cards -----

  lemma {:induction false} DevCardTypesConcat(a: seq<InventoryItem>, b: seq<InventoryItem>)
    ensures DevCardTypes(a + b) == DevCardTypes(a) + DevCardTypes(b)
    decreases |b|
  {
    if b == [] {
      assert a + b == a;
    } else {
      assert (a + b)[..|a + b| - 1] == a + b[..|b| - 1];
      DevCardTypesConcat(a, b[..|b| - 1]);
    }
  }

  /** A type is listed exactly when some development card among the items has it. */
  lemma {:induction false} DevCardTypesMembership(items: seq<InventoryItem>, t: int)
    ensures t in DevCardTypes(items) <==> exists item :: item in items && item.isDevCard && item.itype == t
    decreases |items|
  {
    if items != [] {
      var init := items[..|items| - 1];
      DevCardTypesMembership(init, t);
      assert items == init + [items[|items| - 1]];
    }
  }

  /**
   * A seat's cards: the NEW dev cards in inventory order, and the PLAYABLE
   * then the KEPT dev cards; an item that is not a development card is in
   * neither list.
   */
  lemma SavedDevCards(pl: Player, isVacant: bool, hasSeaBoard: bool)
    ensures var info := PlayerInfoOf(pl, isVacant, hasSeaBoard);
      var inv := pl.inventory;
      && info.newDevCards == DevCardTypes(inv.news)
      && info.oldDevCards == DevCardTypes(inv.playables + inv.kept)
      && (forall t :: t in info.newDevCards <==> exists item :: item in inv.news && item.isDevCard && item.itype == t)
      && (forall t :: t in info.oldDevCards <==>
            exists item :: item in inv.playables + inv.kept && item.isDevCard && item.itype == t)
  {
    var inv := pl.inventory;
    forall t | true
      ensures t in DevCardTypes(inv.news) <==> exists item :: item in inv.news && item.isDevCard && item.itype == t
      ensures t in DevCardTypes(inv.playables + inv.kept) <==>
                exists item :: item in inv.playables + inv.kept && item.isDevCard && item.itype == t
    {
      DevCardTypesMembership(inv.news, t);
      DevCardTypesMembership(inv.playables + inv.kept, t);
    }
  }

  // ----- Identity, pieces and fortress -----

  /**
   * A seat keeps the player's identity and flags, records the vacancy it
   * was given, copies the pieces in order, and keeps the fortress apart:
   * when there is one, it is not among the saved pieces.
   */
  lemma SavedPiecesAndFortress(pl: Player, isVacant: bool, hasSeaBoard: bool)
    requires pl.Valid()
    ensures var info := PlayerInfoOf(pl, isVacant, hasSeaBoard);
      && info.name == pl.name && info.isSeatVacant == isVacant && info.totalVP == pl.totalVP
      && info.isRobot == pl.isRobot && info.isBuiltInRobot == pl.isBuiltInRobot && info.faceID == pl.faceId
      && info.pieces == pl.pieces
      && info.fortressPiece == pl.fortress
      && (info.fortressPiece.Some? ==> info.fortressPiece.value !in info.pieces)
  {
  }

  // ----- A seat at the start of play -----

  /**
   * A player with 2 clay, 1 wood, 14 roads, 5 settlements and 4 cities
   * left on a board without sea, holding one playable dev card of type
   * cardType: its seat lists (CLAY, 2) first and (WOOD, 1) fifth, tags the
   * road count with CITIES, and saves the card as an old dev card.
   */
  lemma StartOfPlaySeat(cardType: int)
    ensures var pl := Player(Some("p0"), 3, false, false, 0, ResourceSet(2, 0, 0, 0, 1, 0), 0,
                             PieceCounts(14, 5, 4, 0), 0,
                             Inventory([], [InventoryItem(cardType, true)], []), [], None);
      var info := PlayerInfoOf(pl, false, false);
      && info.elements[0..2] == [CLAY, 2] && info.elements[8..10] == [WOOD, 1]
      && info.elements[18..20] == [CITIES, 14]
      && |info.elements| == 20
      && info.oldDevCards == [cardType] && info.newDevCards == []
  {
    var pl := Player(Some("p0"), 3, false, false, 0, ResourceSet(2, 0, 0, 0, 1, 0), 0,
                     PieceCounts(14, 5, 4, 0), 0,
                     Inventory([], [InventoryItem(cardType, true)], []), [], None);
    ElementsLayout(pl, false);
    SavedDevCards(pl, false, false);
    assert [InventoryItem(cardType, true)][..0] == [];
  }
}

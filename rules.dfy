/**
  * The round input rules of the Trix game: the TRIX rule table, the clamping of
  * raw seat inputs, the acceptance rules of `validateTrixInput` and the point
  * formulas of `addRoundTrix`.  A round always has one input per seat, four seats.
  */
module Rules {
  import opened Wrappers

  /** The five Trix sub-games offered by the sub-game selector. */
  datatype SubGame = King | Queens | Diamonds | Luto | Trix

  /** The type string handed to the validator: one of the five sub-games, or any other string. */
  datatype TypeTag = Tag(g: SubGame) | OtherTag

  /** Why a round was rejected; the message of the source names the sub-game whose rule failed. */
  datatype RuleError = WrongSum(g: SubGame) | NotAllPlaces

  // ----- The TRIX rule table -----

  /** Lowest accepted value of a seat's input (`min` of the table; places start at 1). */
  function Lo(g: SubGame): int
  {
    if g == Trix then 1 else 0
  }

  /** Highest accepted value of a seat's input (`max` of the table; places end at 4). */
  function Hi(g: SubGame): int
  {
    match g
    case King => 1
    case Queens => 4
    case Diamonds => 13
    case Luto => 13
    case Trix => 4
  }

  /** Points awarded for finishing at `place` in the Trix sub-game; unknown places score 0. */
  function PlacePoints(place: int): int
  {
    if place == 1 then 200
    else if place == 2 then 150
    else if place == 3 then 100
    else if place == 4 then 50
    else 0
  }

  /** The points of one seat: count times `pointsPer` for the count sub-games, by place for Trix. */
  function SeatPoints(g: SubGame, v: int): int
  {
    match g
    case King => v * -75
    case Queens => v * -25
    case Diamonds => v * -10
    case Luto => v * -15
    case Trix => PlacePoints(v)
  }

  // ----- Helpers -----

  function Min(a: int, b: int): int { if a <= b then a else b }
  function Max(a: int, b: int): int { if a >= b then a else b }

  /** `clampInt` on an integer: `min(hi, max(lo, v))`. */
  function Clamp(v: int, lo: int, hi: int): (r: int)
    ensures r <= hi
    ensures lo <= hi ==> lo <= r
    ensures lo <= v <= hi ==> r == v
    ensures lo <= hi && v < lo ==> r == lo
    ensures v > hi ==> r == hi
  {
    Min(hi, Max(lo, v))
  }

  /** Every seat's input clamped to [lo, hi]. */
  function ClampAll(s: seq<int>, lo: int, hi: int): seq<int>
  {
    seq(|s|, i requires 0 <= i < |s| => Clamp(s[i], lo, hi))
  }

  /** `sum`: the total of a sequence of integers. */
  function Sum(s: seq<int>): int
  {
    if s == [] then 0 else s[0] + Sum(s[1..])
  }

  lemma Sum4(s: seq<int>)
    requires |s| == 4
    ensures Sum(s) == s[0] + s[1] + s[2] + s[3]
  {
    assert Sum(s[3..]) == s[3] by {
      assert s[3..][1..] == [];
    }
    assert Sum(s[2..]) == s[2] + s[3] by {
      assert s[2..][1..] == s[3..];
    }
    assert Sum(s[1..]) == s[1] + s[2] + s[3] by {
      assert s[1..][1..] == s[2..];
    }
  }

  // ----- Sorting, as the Trix check sorts the places ascending -----

  predicate Ascending(s: seq<int>)
  {
    forall i, j :: 0 <= i < j < |s| ==> s[i] <= s[j]
  }

  lemma ConsAscending(x: int, s: seq<int>)
    requires Ascending(s)
    requires s != [] ==> x <= s[0]
    ensures Ascending([x] + s)
  {
  }

  function Insert(x: int, s: seq<int>): (r: seq<int>)
    requires Ascending(s)
    ensures |r| == |s| + 1
    ensures r[0] == x || (s != [] && r[0] == s[0])
    ensures Ascending(r)
    ensures multiset(r) == multiset(s) + multiset{x}
    ensures Sum(r) == Sum(s) + x
  {
    if s == [] || x <= s[0] then
      ConsAscending(x, s);
      [x] + s
    else
      HeadSplit(s);
      var rest := Insert(x, s[1..]);
      ConsAscending(s[0], rest);
      [s[0]] + rest
  }

  /** The places sorted ascending (`[...input].sort((a, b) => a - b)`). */
  function SortAsc(s: seq<int>): (r: seq<int>)
    ensures Ascending(r)
    ensures multiset(r) == multiset(s)
    ensures Sum(r) == Sum(s)
  {
    if s == [] then [] else
      assert s == [s[0]] + s[1..];
      Insert(s[0], SortAsc(s[1..]))
  }

  /** The first element of an ascending sequence is its least element. */
  lemma HeadIsLeast(a: seq<int>, y: int)
    requires Ascending(a) && y in multiset(a)
    ensures a[0] <= y
  {
  }

  /** The tail of a non-empty sequence holds its elements but the head, and stays ascending. */
  lemma HeadSplit(a: seq<int>)
    requires a != []
    ensures multiset(a) == multiset{a[0]} + multiset(a[1..])
    ensures Ascending(a) ==> Ascending(a[1..])
  {
    assert a == [a[0]] + a[1..];
  }

  /** Sequences with the same elements have the same length. */
  lemma SameLength(a: seq<int>, b: seq<int>)
    requires multiset(a) == multiset(b)
    ensures |a| == |b|
  {
    assert |a| == |multiset(a)| == |multiset(b)| == |b|;
  }

  /** Two ascending sequences with the same elements start with the same element. */
  lemma HeadsEqual(a: seq<int>, b: seq<int>)
    requires Ascending(a) && Ascending(b) && a != []
    requires multiset(a) == multiset(b)
    ensures b != [] && a[0] == b[0]
  {
    assert a[0] in multiset(b);
    HeadIsLeast(a, b[0]);
    HeadIsLeast(b, a[0]);
  }

  /** Sequences with the same elements and the same head have tails with the same elements. */
  lemma TailsSameElements(a: seq<int>, b: seq<int>)
    requires a != [] && b != [] && a[0] == b[0]
    requires multiset(a) == multiset(b)
    ensures multiset(a[1..]) == multiset(b[1..])
  {
    HeadSplit(a);
    HeadSplit(b);
    assert multiset(a[1..]) == multiset(a) - multiset{a[0]};
    assert multiset(b[1..]) == multiset(b) - multiset{b[0]};
  }

  lemma ConsEqual(a: seq<int>, b: seq<int>)
    requires a != [] && b != [] && a[0] == b[0] && a[1..] == b[1..]
    ensures a == b
  {
    assert a == [a[0]] + a[1..];
    assert b == [b[0]] + b[1..];
  }

  /** Two ascending sequences with the same elements are equal: sorting has one outcome. */
  lemma {:induction false} AscendingUnique(a: seq<int>, b: seq<int>)
    requires Ascending(a) && Ascending(b)
    requires multiset(a) == multiset(b)
    ensures a == b
  {
    if a == [] {
      SameLength(a, b);
    } else {
      HeadsEqual(a, b);
      TailsSameElements(a, b);
      HeadSplit(a);
      HeadSplit(b);
      AscendingUnique(a[1..], b[1..]);
      ConsEqual(a, b);
    }
  }

  // ----- Validation -----

  /**
    * `validateTrixInput`: None (the source's `null`) when the input is accepted,
    * otherwise the rule that failed.  King needs sum 1, Queens sum 4, Diamonds and
    * Luto sum 13; Trix needs the sorted places to read exactly 1,2,3,4.  Any other
    * type string is accepted.
    */
  function Validate(t: TypeTag, input: seq<int>): Option<RuleError>
  {
    match t
    case OtherTag => None
    case Tag(g) =>
      match g
      case King => if Sum(input) != 1 then Some(WrongSum(King)) else None
      case Queens => if Sum(input) != 4 then Some(WrongSum(Queens)) else None
      case Diamonds => if Sum(input) != 13 then Some(WrongSum(Diamonds)) else None
      case Luto => if Sum(input) != 13 then Some(WrongSum(Luto)) else None
      case Trix => if SortAsc(input) != [1, 2, 3, 4] then Some(NotAllPlaces) else None
  }

  /** The input `addRoundTrix` validates: each raw seat value clamped to the sub-game's range. */
  function RoundInput(g: SubGame, raw: seq<int>): seq<int>
  {
    ClampAll(raw, Lo(g), Hi(g))
  }

  /** Exactly one seat holds 1 and every other seat holds 0. */
  predicate OneHot(c: seq<int>)
  {
    exists k :: 0 <= k < |c| && c[k] == 1 && forall j :: 0 <= j < |c| && j != k ==> c[j] == 0
  }

  /** Exactly one seat's raw value is at least 1. */
  predicate ExactlyOnePositive(raw: seq<int>)
  {
    exists k :: 0 <= k < |raw| && raw[k] >= 1 && forall j :: 0 <= j < |raw| && j != k ==> raw[j] < 1
  }

  /** The King round is accepted iff exactly one seat took the king, whatever the raw values were. */
  lemma KingAccepted(raw: seq<int>)
    requires |raw| == 4
    ensures Validate(Tag(King), RoundInput(King, raw)) == None <==> OneHot(RoundInput(King, raw))
    ensures OneHot(RoundInput(King, raw)) <==> ExactlyOnePositive(raw)
  {
    var c := RoundInput(King, raw);
    Sum4(c);
    assert forall i :: 0 <= i < 4 ==> (c[i] == 1 <==> raw[i] >= 1) && (c[i] == 0 <==> raw[i] < 1);
    if OneHot(c) {
      var k :| 0 <= k < 4 && c[k] == 1 && forall j :: 0 <= j < 4 && j != k ==> c[j] == 0;
      assert Sum(c) == 1;
      assert raw[k] >= 1 && forall j :: 0 <= j < 4 && j != k ==> raw[j] < 1;
    }
    if Sum(c) == 1 {
      var k := if c[0] == 1 then 0 else if c[1] == 1 then 1 else if c[2] == 1 then 2 else 3;
      assert c[k] == 1 && forall j :: 0 <= j < 4 && j != k ==> c[j] == 0;
    }
    if ExactlyOnePositive(raw) {
      var k :| 0 <= k < 4 && raw[k] >= 1 && forall j :: 0 <= j < 4 && j != k ==> raw[j] < 1;
      assert c[k] == 1 && forall j :: 0 <= j < 4 && j != k ==> c[j] == 0;
    }
  }

  /** The number of cards (or tricks) a count sub-game deals out in total. */
  function DealtCount(g: SubGame): int
    requires g != Trix
  {
    match g
    case King => 1
    case Queens => 4
    case Diamonds => 13
    case Luto => 13
  }

  /**
    * A count sub-game whose raw counts all lie within the table's range is accepted
    * iff the counts add up to what the deal holds.
    */
  lemma CountAccepted(g: SubGame, raw: seq<int>)
    requires g != Trix
    requires forall i :: 0 <= i < |raw| ==> 0 <= raw[i] <= Hi(g)
    ensures Validate(Tag(g), RoundInput(g, raw)) == None <==> Sum(raw) == DealtCount(g)
  {
    assert RoundInput(g, raw) == raw;
  }

  /** Sorting yields 1,2,3,4 exactly when the places are a permutation of 1..4. */
  lemma SortedPlaces(c: seq<int>)
    ensures SortAsc(c) == [1, 2, 3, 4] <==> multiset(c) == multiset{1, 2, 3, 4}
  {
    assert multiset([1, 2, 3, 4]) == multiset{1, 2, 3, 4};
    assert Ascending([1, 2, 3, 4]);
    if multiset(c) == multiset{1, 2, 3, 4} {
      AscendingUnique(SortAsc(c), [1, 2, 3, 4]);
    }
  }

  /** The Trix round is accepted iff the clamped places are a permutation of 1, 2, 3, 4. */
  lemma TrixAccepted(raw: seq<int>)
    ensures Validate(Tag(Trix), RoundInput(Trix, raw)) == None
        <==> multiset(RoundInput(Trix, raw)) == multiset{1, 2, 3, 4}
  {
    SortedPlaces(RoundInput(Trix, raw));
  }

  /** The validator accepts anything for a type string that is not one of the five sub-games. */
  lemma OtherTypeAccepted(input: seq<int>)
    ensures Validate(OtherTag, input) == None
  {
  }

  // ----- Points -----

  /** The points of each seat (`input.map(...)`). */
  function Points(g: SubGame, input: seq<int>): (r: seq<int>)
    ensures |r| == |input|
  {
    if input == [] then [] else [SeatPoints(g, input[0])] + Points(g, input[1..])
  }

  lemma {:induction false} PointsAt(g: SubGame, input: seq<int>, i: int)
    requires 0 <= i < |input|
    ensures Points(g, input)[i] == SeatPoints(g, input[i])
  {
    if i > 0 {
      PointsAt(g, input[1..], i - 1);
    }
  }

  /** For a count sub-game each seat's points are its count times the points per card. */
  lemma {:induction false} SumPointsCount(g: SubGame, input: seq<int>)
    requires g != Trix
    ensures Sum(Points(g, input)) == Sum(input) * SeatPoints(g, 1)
  {
    if input != [] {
      SumPointsCount(g, input[1..]);
    }
  }

  /** For places in 1..4 the Trix points are 250 - 50 * place. */
  lemma {:induction false} SumPointsTrix(input: seq<int>)
    requires forall i :: 0 <= i < |input| ==> 1 <= input[i] <= 4
    ensures Sum(Points(Trix, input)) == 250 * |input| - 50 * Sum(input)
  {
    if input != [] {
      SumPointsTrix(input[1..]);
    }
  }

  lemma PlacesSum(c: seq<int>)
    requires multiset(c) == multiset{1, 2, 3, 4}
    ensures Sum(c) == 10
  {
    SortedPlaces(c);
    assert Sum([1, 2, 3, 4]) == 10;
  }

  lemma PlacesTotal(c: seq<int>)
    requires multiset(c) == multiset{1, 2, 3, 4}
    ensures Sum(Points(Trix, c)) == 500
  {
    PlacesSum(c);
    assert |c| == 4 by {
      assert |multiset(c)| == 4;
    }
    forall i | 0 <= i < |c| ensures 1 <= c[i] <= 4 {
      assert c[i] in multiset(c);
    }
    SumPointsTrix(c);
  }

  /** The total points every accepted round of a sub-game hands out. */
  function RoundTotal(g: SubGame): int
  {
    match g
    case King => -75
    case Queens => -100
    case Diamonds => -130
    case Luto => -195
    case Trix => 500
  }

  /**
    * An accepted round hands out a fixed total: -75 for King, -100 for Queens,
    * -130 for Diamonds, -195 for Luto and 500 for Trix.
    */
  lemma AcceptedRoundTotal(g: SubGame, raw: seq<int>)
    requires Validate(Tag(g), RoundInput(g, raw)) == None
    ensures Sum(Points(g, RoundInput(g, raw))) == RoundTotal(g)
  {
    var c := RoundInput(g, raw);
    if g == Trix {
      TrixAccepted(raw);
      PlacesTotal(c);
    } else {
      SumPointsCount(g, c);
    }
  }

  lemma {:induction false} PointsAppend(g: SubGame, a: seq<int>, b: seq<int>)
    ensures Points(g, a + b) == Points(g, a) + Points(g, b)
  {
    if a != [] {
      assert (a + b)[0] == a[0];
      assert (a + b)[1..] == a[1..] + b;
      PointsAppend(g, a[1..], b);
    } else {
      assert a + b == b;
    }
  }

  /** Taking one seat out of the inputs takes exactly its points out of the points. */
  lemma PointsRemove(g: SubGame, b: seq<int>, i: nat)
    requires i < |b|
    ensures multiset(Points(g, b)) == multiset(Points(g, b[..i] + b[i + 1..])) + multiset{SeatPoints(g, b[i])}
  {
    assert b == b[..i] + [b[i]] + b[i + 1..];
    PointsAppend(g, b[..i] + [b[i]], b[i + 1..]);
    PointsAppend(g, b[..i], [b[i]]);
    PointsAppend(g, b[..i], b[i + 1..]);
  }

  /** An element of `a`'s head found in `b`: the rest of `b` holds the same elements as `a`'s tail. */
  lemma FindHead(a: seq<int>, b: seq<int>) returns (i: nat)
    requires a != [] && multiset(a) == multiset(b)
    ensures i < |b| && b[i] == a[0]
    ensures multiset(a[1..]) == multiset(b[..i] + b[i + 1..])
  {
    assert a[0] in multiset(b);
    i :| 0 <= i < |b| && b[i] == a[0];
    var rest := b[..i] + b[i + 1..];
    assert multiset(b) == multiset{a[0]} + multiset(rest) by {
      assert b == b[..i] + [b[i]] + b[i + 1..];
    }
    HeadSplit(a);
    assert multiset(a[1..]) == multiset(a) - multiset{a[0]};
    assert multiset(rest) == multiset(b) - multiset{a[0]};
  }

  /** Seat points do not depend on the seat: permuting the inputs permutes the points. */
  lemma {:induction false} PointsPermute(g: SubGame, a: seq<int>, b: seq<int>)
    requires multiset(a) == multiset(b)
    ensures multiset(Points(g, a)) == multiset(Points(g, b))
  {
    if a == [] {
      SameLength(a, b);
    } else {
      var i := FindHead(a, b);
      PointsPermute(g, a[1..], b[..i] + b[i + 1..]);
      PointsRemove(g, b, i);
      assert Points(g, a) == [SeatPoints(g, a[0])] + Points(g, a[1..]);
    }
  }

  /** Places 1, 2, 3, 4 score 200, 150, 100 and 50, in some order. */
  lemma PlacesLiteral()
    ensures multiset(Points(Trix, [1, 2, 3, 4])) == multiset{200, 150, 100, 50}
  {
  }

  /** The points of any permutation of the four places are a permutation of 200, 150, 100, 50. */
  lemma PlacesPoints(c: seq<int>)
    requires multiset(c) == multiset{1, 2, 3, 4}
    ensures multiset(Points(Trix, c)) == multiset{200, 150, 100, 50}
  {
    assert multiset(c) == multiset([1, 2, 3, 4]);
    PointsPermute(Trix, c, [1, 2, 3, 4]);
    PlacesLiteral();
  }

  /** In an accepted Trix round the four seats receive 200, 150, 100 and 50, one each. */
  lemma AcceptedTrixPoints(raw: seq<int>)
    requires Validate(Tag(Trix), RoundInput(Trix, raw)) == None
    ensures multiset(Points(Trix, RoundInput(Trix, raw))) == multiset{200, 150, 100, 50}
  {
    var c := RoundInput(Trix, raw);
    TrixAccepted(raw);
    PlacesPoints(c);
  }

  /** Worked example: a Queens round split 1, 1, 2, 0 is accepted and costs -25, -25, -50, 0. */
  lemma QueensExample()
    ensures Validate(Tag(Queens), RoundInput(Queens, [1, 1, 2, 0])) == None
    ensures Points(Queens, RoundInput(Queens, [1, 1, 2, 0])) == [-25, -25, -50, 0]
  {
  }

  /** Worked example: a King round where two seats claim the king is rejected. */
  lemma KingExample()
    ensures Validate(Tag(King), RoundInput(King, [1, 1, 0, 0])) == Some(WrongSum(King))
  {
  }

  /** Worked example: places 1, 2, 3, 4 score 200, 150, 100, 50. */
  lemma TrixExample()
    ensures Points(Trix, RoundInput(Trix, [1, 2, 3, 4])) == [200, 150, 100, 50]
  {
  }

  /** An empty place field reads as 0 and is clamped to place 1, so 0, 2, 3, 4 is accepted. */
  lemma EmptyPlaceExample()
    ensures Validate(Tag(Trix), RoundInput(Trix, [0, 2, 3, 4])) == None
  {
    var c := RoundInput(Trix, [0, 2, 3, 4]);
    assert c == [1, 2, 3, 4];
    assert multiset(c) == multiset{1, 2, 3, 4};
    TrixAccepted([0, 2, 3, 4]);
  }

  /** Raw counts outside the table's range are clamped before the check: Queens 5, 0, 0, 0 reads as 4, 0, 0, 0 and is accepted. */
  lemma OverCountExample()
    ensures Sum([5, 0, 0, 0]) != DealtCount(Queens)
    ensures RoundInput(Queens, [5, 0, 0, 0]) == [4, 0, 0, 0]
    ensures Validate(Tag(Queens), RoundInput(Queens, [5, 0, 0, 0])) == None
  {
  }
}

/**
  Properties of the Tic-Tac-Toe board: the occupancy queries agree with each
  other, and the line scans of ttt.rb agree with direct, position-by-position
  definitions of a completed line and of a threat.
 */
module TttBoardFacts {
  import opened Options
  import opened TttBoard

  /** Reference definition: every square of `l` holds the non-blank `m`. */
  predicate Owns(b: Board, l: Line, m: char) {
    m != Blank && At(b, l.a).marker == m && At(b, l.b).marker == m && At(b, l.c).marker == m
  }

  /** Reference definition: two squares of `l` hold `m`, the third is blank. */
  predicate OneShort(b: Board, l: Line, m: char) {
    m != Blank && CountOf(LineMarkers(b, l), m) == 2 && CountOf(LineMarkers(b, l), Blank) == 1
  }

  lemma ThreeSetSize(x: char, y: char, z: char)
    ensures |{x, y, z}| == 1 <==> x == y && y == z
  {
    if x != y {
      assert {x, y} <= {x, y, z};
      assert |{x, y}| == 2;
    } else if y != z {
      assert {y, z} <= {x, y, z};
      assert |{y, z}| == 2;
    } else {
      assert {x, y, z} == {x};
    }
  }

  lemma CountOfThree(x: char, y: char, z: char, c: char)
    ensures CountOf([x, y, z], c) == (if x == c then 1 else 0) + (if y == c then 1 else 0) + (if z == c then 1 else 0)
  {
    assert [x, y, z][1..] == [y, z];
    assert [y, z][1..] == [z];
    assert [z][1..] == [];
    assert CountOf([z], c) == (if z == c then 1 else 0);
    assert CountOf([y, z], c) == (if y == c then 1 else 0) + CountOf([z], c);
  }

  /** `three_identical_markers?` holds exactly when some non-blank marker owns the line. */
  lemma ThreeIdenticalIffOwned(b: Board, l: Line)
    ensures ThreeIdentical(b, l) <==> Owns(b, l, At(b, l.a).marker)
    ensures forall m :: Owns(b, l, m) ==> ThreeIdentical(b, l) && m == At(b, l.a).marker
  {
    CountOfThree(At(b, l.a).marker, At(b, l.b).marker, At(b, l.c).marker, Blank);
    ThreeSetSize(At(b, l.a).marker, At(b, l.b).marker, At(b, l.c).marker);
  }

  /** `threat?` holds exactly when the line is one `marker` short of being owned by it. */
  lemma ThreatIffOneShort(b: Board, marker: char, l: Line)
    ensures Threat(b, marker, l) <==> OneShort(b, l, marker)
  {
    var x, y, z := At(b, l.a).marker, At(b, l.b).marker, At(b, l.c).marker;
    assert LineMarkers(b, l) == [x, y, z];
    CountOfThree(x, y, z, marker);
    CountOfThree(x, y, z, Blank);
    if OneShort(b, l, marker) {
      assert x in {marker, Blank} && y in {marker, Blank} && z in {marker, Blank};
      assert marker in {x, y, z} && Blank in {x, y, z};
    }
    if Threat(b, marker, l) {
      assert x in {marker, Blank} && y in {marker, Blank} && z in {marker, Blank};
    }
  }

  /** Reference definition: the line is owned by the marker on its first square. */
  predicate Completed(b: Board, l: Line) {
    Owns(b, l, At(b, l.a).marker)
  }

  /** Line `i` is the first line of `WinningLines` that is completed. */
  predicate FirstCompleted(b: Board, i: int) {
    0 <= i < |WinningLines| && Completed(b, WinningLines[i]) &&
      forall j :: 0 <= j < i ==> !Completed(b, WinningLines[j])
  }

  /** Line `i` is the first line of `WinningLines` one `m` short of completion. */
  predicate FirstOneShort(b: Board, m: char, i: int) {
    0 <= i < |WinningLines| && OneShort(b, WinningLines[i], m) &&
      forall j :: 0 <= j < i ==> !OneShort(b, WinningLines[j], m)
  }

  // ---------------------------------------------------------------------------
  // Occupancy

  lemma {:induction false} UnmarkedFromSpec(b: Board, k: int)
    requires 1 <= k <= 10
    ensures forall i :: 0 <= i < |UnmarkedFrom(b, k)| ==>
      k <= UnmarkedFrom(b, k)[i] && At(b, UnmarkedFrom(b, k)[i]).Unmarked()
    ensures forall j: Key :: k <= j && At(b, j).Unmarked() ==> j in UnmarkedFrom(b, k)
    ensures forall i, j :: 0 <= i < j < |UnmarkedFrom(b, k)| ==> UnmarkedFrom(b, k)[i] < UnmarkedFrom(b, k)[j]
    decreases 10 - k
  {
    if k < 10 {
      UnmarkedFromSpec(b, k + 1);
    }
  }

  /** `unmarked_keys` lists exactly the unmarked keys, in ascending order. */
  lemma UnmarkedKeysSpec(b: Board)
    ensures forall k: Key :: k in UnmarkedKeys(b) <==> At(b, k).Unmarked()
    ensures forall i, j :: 0 <= i < j < |UnmarkedKeys(b)| ==> UnmarkedKeys(b)[i] < UnmarkedKeys(b)[j]
  {
    UnmarkedFromSpec(b, 1);
  }

  lemma {:induction false} CountFrom(b: Board, k: int)
    requires 1 <= k <= 10
    ensures |UnmarkedFrom(b, k)| + CountMarked(b[k - 1..]) == 10 - k
    ensures CountMarked(b[k - 1..]) == 0 <==> forall j: Key :: k <= j ==> At(b, j).Unmarked()
    decreases 10 - k
  {
    if k < 10 {
      CountFrom(b, k + 1);
      assert b[k - 1..][1..] == b[k..];
    }
  }

  /**
    `unmarked_keys`, `full?` and `empty?` agree: the unmarked keys and the
    marked squares together number nine, the board is full iff every square is
    marked, and it is empty iff none is.
   */
  lemma OccupancyAccounting(b: Board)
    ensures |UnmarkedKeys(b)| + MarkedCount(b) == 9
    ensures Full(b) <==> forall k: Key :: At(b, k).Marked()
    ensures IsEmpty(b) <==> forall k: Key :: At(b, k).Unmarked()
  {
    CountFrom(b, 1);
    assert b[0..] == b;
    UnmarkedKeysSpec(b);
    if !Full(b) {
      assert UnmarkedKeys(b)[0] in UnmarkedKeys(b);
    }
  }

  /** After `reset` every square is unmarked: the board is empty, not full, and has no winner or threat. */
  lemma ResetIsEmpty(m: char)
    ensures forall k: Key :: At(Reset(), k).Unmarked()
    ensures IsEmpty(Reset()) && !Full(Reset())
    ensures forall k: Key :: k in UnmarkedKeys(Reset())
    ensures WinningMarker(Reset()) == None
    ensures DefensivePlay(Reset(), m) == None
  {
    AllBlankBoard(Reset(), m);
    UnmarkedKeysSpec(Reset());
  }

  lemma AllBlankBoard(b: Board, m: char)
    requires forall k: Key :: At(b, k).Unmarked()
    ensures IsEmpty(b) && !Full(b)
    ensures WinningMarker(b) == None
    ensures DefensivePlay(b, m) == None
  {
    OccupancyAccounting(b);
    NoWinnerWhenAllBlank(b);
    NoThreatWhenAllBlank(b, m);
  }

  lemma NoWinnerWhenAllBlank(b: Board)
    requires forall k: Key :: At(b, k).Unmarked()
    ensures WinningMarker(b) == None
  {
    forall i | 0 <= i < |WinningLines|
      ensures !ThreeIdentical(b, WinningLines[i])
    {
      ThreeIdenticalIffOwned(b, WinningLines[i]);
    }
  }

  lemma NoThreatWhenAllBlank(b: Board, m: char)
    requires forall k: Key :: At(b, k).Unmarked()
    ensures DefensivePlay(b, m) == None
  {
    forall i | 0 <= i < |WinningLines|
      ensures !Threat(b, m, WinningLines[i])
    {
      var l := WinningLines[i];
      ThreatIffOneShort(b, m, l);
      CountOfThree(At(b, l.a).marker, At(b, l.b).marker, At(b, l.c).marker, Blank);
    }
  }

  // ---------------------------------------------------------------------------
  // Line scans

  /** The three keys of each winning line are distinct. */
  lemma WinningLinesDistinctKeys(i: int)
    requires 0 <= i < |WinningLines|
    ensures WinningLines[i].a != WinningLines[i].b
    ensures WinningLines[i].b != WinningLines[i].c
    ensures WinningLines[i].a != WinningLines[i].c
  {
  }

  lemma ScanAgreesWithCompleted(b: Board)
    ensures forall i :: 0 <= i < |WinningLines| ==>
      (ThreeIdentical(b, WinningLines[i]) <==> Completed(b, WinningLines[i]))
  {
    forall i | 0 <= i < |WinningLines|
      ensures ThreeIdentical(b, WinningLines[i]) <==> Completed(b, WinningLines[i])
    {
      ThreeIdenticalIffOwned(b, WinningLines[i]);
    }
  }

  /**
    `winning_marker` returns `m` exactly when the first completed line in
    `WINNING_LINES` order is owned by `m`; it returns nil exactly when no line
    is completed; and it never returns the blank marker.
   */
  lemma WinningMarkerSpec(b: Board, m: char)
    ensures WinningMarker(b).None? <==> forall i :: 0 <= i < |WinningLines| ==> !Completed(b, WinningLines[i])
    ensures WinningMarker(b) == Some(m) <==> exists i :: FirstCompleted(b, i) && Owns(b, WinningLines[i], m)
    ensures WinningMarker(b).Some? ==> WinningMarker(b).value != Blank
  {
    ScanAgreesWithCompleted(b);
    match FirstWinningLine(b, 0)
    case None =>
    case Some(i) =>
      assert FirstCompleted(b, i);
      if exists j :: FirstCompleted(b, j) && Owns(b, WinningLines[j], m) {
        var j :| FirstCompleted(b, j) && Owns(b, WinningLines[j], m);
        assert j == i;
      }
  }

  lemma ScanAgreesWithOneShort(b: Board, m: char)
    ensures forall i :: 0 <= i < |WinningLines| ==>
      (Threat(b, m, WinningLines[i]) <==> OneShort(b, WinningLines[i], m))
  {
    forall i | 0 <= i < |WinningLines|
      ensures Threat(b, m, WinningLines[i]) <==> OneShort(b, WinningLines[i], m)
    {
      ThreatIffOneShort(b, m, WinningLines[i]);
    }
  }

  /** On a line one `m` short, the blank square is the only key that is unmarked. */
  lemma OneShortBlankKey(b: Board, m: char, i: int)
    requires 0 <= i < |WinningLines| && OneShort(b, WinningLines[i], m)
    ensures LastBlankKey(b, WinningLines[i]).Some?
    ensures forall k :: k in WinningLines[i].Keys() ==>
      (At(b, k).Unmarked() <==> LastBlankKey(b, WinningLines[i]) == Some(k))
    ensures forall k :: k in WinningLines[i].Keys() && At(b, k).Marked() ==> At(b, k).marker == m
  {
    var l := WinningLines[i];
    WinningLinesDistinctKeys(i);
    CountOfThree(At(b, l.a).marker, At(b, l.b).marker, At(b, l.c).marker, Blank);
    CountOfThree(At(b, l.a).marker, At(b, l.b).marker, At(b, l.c).marker, m);
  }

  /**
    `defensive_play(m)` returns `k` exactly when `k` is the blank square of the
    first line holding two `m` and one blank; it returns nil exactly when no
    line does.
   */
  lemma DefensivePlaySpec(b: Board, m: char, k: Key)
    ensures DefensivePlay(b, m).None? <==> forall i :: 0 <= i < |WinningLines| ==> !OneShort(b, WinningLines[i], m)
    ensures DefensivePlay(b, m) == Some(k) <==>
      exists i :: FirstOneShort(b, m, i) && k in WinningLines[i].Keys() && At(b, k).Unmarked()
    ensures DefensivePlay(b, m).Some? ==> At(b, DefensivePlay(b, m).value).Unmarked()
  {
    ScanAgreesWithOneShort(b, m);
    match FirstThreat(b, m, 0)
    case None =>
    case Some(i) =>
      assert FirstOneShort(b, m, i);
      OneShortBlankKey(b, m, i);
      if exists j :: FirstOneShort(b, m, j) && k in WinningLines[j].Keys() && At(b, k).Unmarked() {
        var j :| FirstOneShort(b, m, j) && k in WinningLines[j].Keys() && At(b, k).Unmarked();
        assert j == i;
      }
  }

  /** A line through the marked square can only be completed by the marker just placed. */
  lemma MarkedLineOwner(b: Board, k: Key, m: char, l: Line)
    requires Completed(Mark(b, k, m), l)
    ensures k in l.Keys() ==> Owns(Mark(b, k, m), l, m)
    ensures k !in l.Keys() ==> Completed(b, l)
  {
  }

  /**
    Marking the square `offensive_play(m)` returns with `m` completes a line
    for `m`, so `match_winner?` holds afterwards; if nobody had won before,
    the winner is `m`.
   */
  lemma OffensivePlayCompletesLine(b: Board, m: char, k: Key)
    requires OffensivePlay(b, m) == Some(k)
    ensures exists i :: 0 <= i < |WinningLines| && Owns(Mark(b, k, m), WinningLines[i], m)
    ensures MatchWinner(Mark(b, k, m))
    ensures !MatchWinner(b) ==> WinningMarker(Mark(b, k, m)) == Some(m)
  {
    var b' := Mark(b, k, m);
    DefensivePlaySpec(b, m, k);
    var i :| FirstOneShort(b, m, i) && k in WinningLines[i].Keys() && At(b, k).Unmarked();
    OneShortBlankKey(b, m, i);
    assert Owns(b', WinningLines[i], m);
    WinningMarkerSpec(b', m);
    assert Completed(b', WinningLines[i]);
    if !MatchWinner(b) {
      WinningMarkerSpec(b, m);
      var j := FirstWinningLine(b', 0).value;
      ScanAgreesWithCompleted(b');
      MarkedLineOwner(b, k, m, WinningLines[j]);
      assert FirstCompleted(b', j);
    }
  }

  // ---------------------------------------------------------------------------
  // Marking a square

  lemma {:induction false} CountMarkedAfterUpdate(s: seq<Square>, i: int, sq: Square)
    requires 0 <= i < |s| && s[i].Unmarked() && sq.Marked()
    ensures CountMarked(s[i := sq]) == CountMarked(s) + 1
  {
    if i > 0 {
      CountMarkedAfterUpdate(s[1..], i - 1, sq);
      assert s[i := sq][1..] == s[1..][i - 1 := sq];
    }
  }

  /**
    `[]=` on an unmarked square with a player marker changes that square
    alone: it leaves the unmarked keys, one fewer marked square more.
   */
  lemma MarkTakesOneSquare(b: Board, k: Key, m: char)
    requires At(b, k).Unmarked() && m != Blank
    ensures forall j: Key :: j in UnmarkedKeys(Mark(b, k, m)) <==> j in UnmarkedKeys(b) && j != k
    ensures MarkedCount(Mark(b, k, m)) == MarkedCount(b) + 1
    ensures |UnmarkedKeys(Mark(b, k, m))| + 1 == |UnmarkedKeys(b)|
  {
    UnmarkedKeysSpec(b);
    UnmarkedKeysSpec(Mark(b, k, m));
    CountMarkedAfterUpdate(b, k - 1, Square(m));
    OccupancyAccounting(b);
    OccupancyAccounting(Mark(b, k, m));
  }
}

/**
  The Tic-Tac-Toe board of ttt.rb: nine squares keyed 1..9, each holding the
  blank marker or a one-character player marker, together with the queries the
  game and its computer player ask of it.
 */
module TttBoard {
  import opened Options

  /** `Square::INITIAL_MARKER`. */
  const Blank: char := ' '

  type Key = k: int | 1 <= k <= 9 witness 1

  datatype Square = Square(marker: char) {
    predicate Unmarked() { marker == Blank }
    predicate Marked() { marker != Blank }
  }

  const BlankSquare: Square := Square(Blank)

  /** Square `k` lives at index `k - 1`. */
  type Board = s: seq<Square> | |s| == 9 witness seq(9, _ => Square(' '))

  function At(b: Board, k: Key): Square {
    b[k - 1]
  }

  datatype Line = Line(a: Key, b: Key, c: Key) {
    function Keys(): seq<Key> { [a, b, c] }
  }

  /** `WINNING_LINES`: rows, then columns, then diagonals. */
  const WinningLines: seq<Line> := [
    Line(1, 2, 3), Line(4, 5, 6), Line(7, 8, 9),
    Line(1, 4, 7), Line(2, 5, 8), Line(3, 6, 9),
    Line(1, 5, 9), Line(3, 5, 7)
  ]

  // ---------------------------------------------------------------------------
  // Occupancy queries

  /** The unmarked keys from `k` upward, in ascending order. */
  function UnmarkedFrom(b: Board, k: int): seq<Key>
    requires 1 <= k <= 10
    decreases 10 - k
  {
    if k == 10 then []
    else if At(b, k).Unmarked() then [k as Key] + UnmarkedFrom(b, k + 1)
    else UnmarkedFrom(b, k + 1)
  }

  /** `unmarked_keys`: the hash is filled for keys 1..9 in order, so the keys come out ascending. */
  function UnmarkedKeys(b: Board): seq<Key> {
    UnmarkedFrom(b, 1)
  }

  /** The number of marked squares in a run of squares. */
  function CountMarked(s: seq<Square>): nat {
    if s == [] then 0 else (if s[0].Marked() then 1 else 0) + CountMarked(s[1..])
  }

  function MarkedCount(b: Board): nat {
    CountMarked(b)
  }

  predicate Full(b: Board) {
    |UnmarkedKeys(b)| == 0
  }

  predicate IsEmpty(b: Board) {
    |UnmarkedKeys(b)| == 9
  }

  // ---------------------------------------------------------------------------
  // Line evaluation

  function LineMarkers(b: Board, l: Line): seq<char> {
    [At(b, l.a).marker, At(b, l.b).marker, At(b, l.c).marker]
  }

  /** `count(c)` on a list of markers. */
  function CountOf(s: seq<char>, c: char): nat {
    if s == [] then 0 else (if s[0] == c then 1 else 0) + CountOf(s[1..], c)
  }

  /** The distinct markers on a line (`uniq`, as a set). */
  function DistinctMarkers(b: Board, l: Line): set<char> {
    {At(b, l.a).marker, At(b, l.b).marker, At(b, l.c).marker}
  }

  /**
    `three_identical_markers?`: the marked squares of the line number three
    (none is blank) and they carry a single distinct marker.
   */
  predicate ThreeIdentical(b: Board, l: Line) {
    CountOf(LineMarkers(b, l), Blank) == 0 && |DistinctMarkers(b, l)| == 1
  }

  /**
    `threat?`: the sorted distinct markers of the line equal `[marker, " "].sort`
    and exactly one of the three is blank. The right-hand list always has two
    elements, so a blank `marker` can never produce a threat.
   */
  predicate Threat(b: Board, marker: char, l: Line) {
    marker != Blank &&
      DistinctMarkers(b, l) == {marker, Blank} &&
      CountOf(LineMarkers(b, l), Blank) == 1
  }

  /** The index of the first line from `i` on whose squares hold three identical markers. */
  function FirstWinningLine(b: Board, i: nat): (r: Option<nat>)
    requires i <= |WinningLines|
    ensures r.Some? ==> i <= r.value < |WinningLines| && ThreeIdentical(b, WinningLines[r.value])
    ensures r.Some? ==> forall j :: i <= j < r.value ==> !ThreeIdentical(b, WinningLines[j])
    ensures r.None? ==> forall j :: i <= j < |WinningLines| ==> !ThreeIdentical(b, WinningLines[j])
    decreases |WinningLines| - i
  {
    if i == |WinningLines| then None
    else if ThreeIdentical(b, WinningLines[i]) then Some(i)
    else FirstWinningLine(b, i + 1)
  }

  /** `winning_marker`: the marker on the first completed line, or nil. */
  function WinningMarker(b: Board): Option<char> {
    match FirstWinningLine(b, 0)
    case None => None
    case Some(i) => Some(At(b, WinningLines[i].a).marker)
  }

  /** `match_winner?` */
  predicate MatchWinner(b: Board) {
    WinningMarker(b).Some?
  }

  /** The index of the first line from `i` on that is a threat for `marker`. */
  function FirstThreat(b: Board, marker: char, i: nat): (r: Option<nat>)
    requires i <= |WinningLines|
    ensures r.Some? ==> i <= r.value < |WinningLines| && Threat(b, marker, WinningLines[r.value])
    ensures r.Some? ==> forall j :: i <= j < r.value ==> !Threat(b, marker, WinningLines[j])
    ensures r.None? ==> forall j :: i <= j < |WinningLines| ==> !Threat(b, marker, WinningLines[j])
    decreases |WinningLines| - i
  {
    if i == |WinningLines| then None
    else if Threat(b, marker, WinningLines[i]) then Some(i)
    else FirstThreat(b, marker, i + 1)
  }

  /**
    The inner loop of `defensive_play`: `target` is overwritten by each blank
    key of the line in turn, so the last blank key wins.
   */
  function LastBlankKey(b: Board, l: Line): Option<Key> {
    if At(b, l.c).Unmarked() then Some(l.c)
    else if At(b, l.b).Unmarked() then Some(l.b)
    else if At(b, l.a).Unmarked() then Some(l.a)
    else None
  }

  /** `defensive_play`: the blank key of the first line threatened by `marker`, or nil. */
  function DefensivePlay(b: Board, marker: char): Option<Key> {
    match FirstThreat(b, marker, 0)
    case None => None
    case Some(i) => LastBlankKey(b, WinningLines[i])
  }

  /** `offensive_play` delegates to `defensive_play` with the mover's own marker. */
  function OffensivePlay(b: Board, marker: char): Option<Key> {
    DefensivePlay(b, marker)
  }

  // ---------------------------------------------------------------------------
  // Commands

  /** `reset`: a fresh square at every key. */
  function Reset(): Board {
    seq(9, _ => BlankSquare)
  }

  /** `[]=`: the square at `k` takes `marker`; no legality check is made here. */
  function Mark(b: Board, k: Key, marker: char): (r: Board)
    ensures At(r, k).marker == marker
    ensures forall j: Key :: j != k ==> At(r, j) == At(b, j)
  {
    b[k - 1 := Square(marker)]
  }
}

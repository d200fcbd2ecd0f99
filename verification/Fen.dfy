/** FEN validation (app/fen.py): which texts depict a board, which are clock numerals, and
    what normalization keeps. Piece placement follows section 16.1.3 of the PGN
    Specification and Implementation Guide. */
module Fen {
  import opened Schema

  const MAX_FEN_LENGTH := 256
  const PIECES := "prnbqkPRNBQK"

  // ---------- Splitting on a separator ----------

  // str.split(sep): never empty, and keeps empty parts.
  function Split(s: string, sep: char): (parts: seq<string>)
    ensures parts != []
  {
    if s == "" then [""]
    else
      var rest := Split(s[1..], sep);
      if s[0] == sep then [""] + rest else [[s[0]] + rest[0]] + rest[1..]
  }

  // sep.join(parts)
  function Join(parts: seq<string>, sep: char): string {
    if parts == [] then ""
    else if |parts| == 1 then parts[0]
    else parts[0] + [sep] + Join(parts[1..], sep)
  }

  lemma {:induction false} SplitThenJoin(s: string, sep: char)
    ensures Join(Split(s, sep), sep) == s
    ensures forall part | part in Split(s, sep) :: sep !in part
  {
    if s != "" {
      SplitThenJoin(s[1..], sep);
      var rest, parts := Split(s[1..], sep), Split(s, sep);
      if s[0] == sep {
        assert parts[1..] == rest;
      } else {
        assert parts[1..] == rest[1..];
        assert rest == [rest[0]] + rest[1..];
      }
    }
  }

  lemma {:induction false} JoinThenSplit(parts: seq<string>, sep: char)
    requires parts != [] && forall part | part in parts :: sep !in part
    ensures Split(Join(parts, sep), sep) == parts
    decreases |parts|, |parts[0]|
  {
    var s := Join(parts, sep);
    if parts[0] == "" {
      if |parts| > 1 {
        JoinThenSplit(parts[1..], sep);
        assert s[1..] == Join(parts[1..], sep);
      }
    } else {
      var shorter := [parts[0][1..]] + parts[1..];
      assert s[0] == parts[0][0] && s[0] in parts[0];
      assert forall part | part in shorter :: sep !in part by {
        assert forall c | c in parts[0][1..] :: c in parts[0];
      }
      assert shorter[1..] == parts[1..];
      assert s[1..] == Join(shorter, sep);
      JoinThenSplit(shorter, sep);
      assert parts[0] == [s[0]] + shorter[0];
      assert parts == [parts[0]] + parts[1..];
    }
  }

  // ---------- Piece placement ----------

  datatype Square = Empty | Piece(c: char)

  type Rank = seq<Square>

  predicate IsRunDigit(c: char) {
    '1' <= c <= '8'
  }

  function RunLength(c: char): nat
    requires IsRunDigit(c)
  {
    c as int - '0' as int
  }

  function Empties(n: nat): Rank {
    seq(n, _ => Empty)
  }

  // `text` writes the squares of `rank` from left to right.
  predicate DepictsRank(text: string, rank: Rank) {
    if text == "" then rank == []
    else if text[0] in PIECES then
      rank != [] && rank[0] == Piece(text[0]) && DepictsRank(text[1..], rank[1..])
    else
      && IsRunDigit(text[0])
      && RunLength(text[0]) <= |rank| && rank[..RunLength(text[0])] == Empties(RunLength(text[0]))
      && DepictsRank(text[1..], rank[RunLength(text[0])..])
  }

  predicate IsBoard(board: seq<Rank>) {
    |board| == 8 && forall k | 0 <= k < 8 :: |board[k]| == 8
  }

  ghost predicate Depicts(text: string, board: seq<Rank>) {
    exists ranks :: RanksDepict(text, ranks, board)
  }

  predicate RanksDepict(text: string, ranks: seq<string>, board: seq<Rank>) {
    && text == Join(ranks, '/') && |ranks| == |board|
    && forall k | 0 <= k < |ranks| :: DepictsRank(ranks[k], board[k])
  }

  function Expand(text: string): Option<Rank> {
    if text == "" then Some([])
    else if text[0] !in PIECES && !IsRunDigit(text[0]) then None
    else
      match Expand(text[1..])
      case None => None
      case Some(rest) => Some((if text[0] in PIECES then [Piece(text[0])] else Empties(RunLength(text[0]))) + rest)
  }

  lemma HeadThenRest(text: string, rank: Rank, head: Rank)
    requires text != "" && (text[0] in PIECES || IsRunDigit(text[0]))
    requires head == if text[0] in PIECES then [Piece(text[0])] else Empties(RunLength(text[0]))
    ensures DepictsRank(text, rank) <==>
            |head| <= |rank| && rank[..|head|] == head && DepictsRank(text[1..], rank[|head|..])
  {
    PiecesAreNotDigits(text[0]);
    if text[0] in PIECES {
      assert rank != [] ==> rank[..1] == [rank[0]];
    } else {
      assert |head| == RunLength(text[0]);
    }
  }

  /** A rank text depicts exactly its expansion. */
  lemma {:induction false} ExpansionIsDepicted(text: string, rank: Rank)
    ensures DepictsRank(text, rank) <==> Expand(text) == Some(rank)
  {
    if text != "" && (text[0] in PIECES || IsRunDigit(text[0])) {
      var head := if text[0] in PIECES then [Piece(text[0])] else Empties(RunLength(text[0]));
      HeadThenRest(text, rank, head);
      if |head| <= |rank| {
        ExpansionIsDepicted(text[1..], rank[|head|..]);
        assert rank == rank[..|head|] + rank[|head|..];
      }
      if Expand(text[1..]).Some? {
        var whole := head + Expand(text[1..]).value;
        assert whole[|head|..] == Expand(text[1..]).value && whole[..|head|] == head;
      }
    }
  }

  lemma {:induction false} DepictedHasNoSlash(text: string, rank: Rank)
    requires DepictsRank(text, rank)
    ensures '/' !in text
  {
    if text != "" {
      if text[0] in PIECES {
        DepictedHasNoSlash(text[1..], rank[1..]);
      } else {
        DepictedHasNoSlash(text[1..], rank[RunLength(text[0])..]);
      }
      assert text == [text[0]] + text[1..];
    }
  }

  /** The split finds the only ranks there can be, so the board a text depicts is unique. */
  lemma RanksAreTheSplit(text: string, ranks: seq<string>, board: seq<Rank>)
    requires RanksDepict(text, ranks, board) && ranks != []
    ensures ranks == Split(text, '/')
  {
    forall k | 0 <= k < |ranks|
      ensures '/' !in ranks[k]
    {
      DepictedHasNoSlash(ranks[k], board[k]);
    }
    JoinThenSplit(ranks, '/');
  }

  lemma BoardIsUnique(text: string, a: seq<Rank>, b: seq<Rank>)
    requires IsBoard(a) && IsBoard(b) && Depicts(text, a) && Depicts(text, b)
    ensures a == b
  {
    var ra :| RanksDepict(text, ra, a);
    var rb :| RanksDepict(text, rb, b);
    RanksAreTheSplit(text, ra, a);
    RanksAreTheSplit(text, rb, b);
    forall k | 0 <= k < 8
      ensures a[k] == b[k]
    {
      ExpansionIsDepicted(ra[k], a[k]);
      ExpansionIsDepicted(rb[k], b[k]);
    }
  }

  // Raising FenValidationError is the answer false.
  method ValidatePiecePlacement(placement: string) returns (ok: bool)
    ensures ok <==> exists board :: IsBoard(board) && Depicts(placement, board)
  {
    var ranks := Split(placement, '/');
    AcceptedMeansDepicted(placement);
    if |ranks| != 8 {
      return false;
    }
    var k := 0;
    while k < |ranks|
      invariant k <= |ranks|
      invariant forall j | 0 <= j < k :: FullRank(ranks[j])
    {
      var rank := ranks[k];
      var width := 0;
      var i := 0;
      while i < |rank|
        invariant i <= |rank|
        invariant Expand(rank[..i]).Some? && width == |Expand(rank[..i]).value|
      {
        ExpandOneMore(rank, i);
        if rank[i] in PIECES {
          width := width + 1;
        } else if rank[i] in "12345678" {
          width := width + RunLength(rank[i]);
        } else {
          return false;
        }
        i := i + 1;
      }
      assert rank[..|rank|] == rank;
      if width != 8 {
        return false;
      }
      k := k + 1;
    }
    return true;
  }

  predicate FullRank(text: string) {
    Expand(text).Some? && |Expand(text).value| == 8
  }

  lemma {:induction false} ExpandConcat(a: string, b: string)
    ensures Expand(a + b)
            == if Expand(a).Some? && Expand(b).Some? then Some(Expand(a).value + Expand(b).value) else None
  {
    if a == "" {
      assert a + b == b;
      assert Expand(b).Some? ==> [] + Expand(b).value == Expand(b).value;
    } else {
      assert (a + b)[1..] == a[1..] + b;
      ExpandConcat(a[1..], b);
      if Expand(a).Some? && Expand(b).Some? {
        var head := if a[0] in PIECES then [Piece(a[0])] else Empties(RunLength(a[0]));
        assert head + (Expand(a[1..]).value + Expand(b).value) == (head + Expand(a[1..]).value) + Expand(b).value;
      }
    }
  }

  lemma ExpandLetter(c: char)
    ensures Expand([c])
            == if c in PIECES then Some([Piece(c)]) else if IsRunDigit(c) then Some(Empties(RunLength(c))) else None
  {
    assert [c][1..] == "" && Expand("") == Some([]);
    assert [Piece(c)] + [] == [Piece(c)];
    assert IsRunDigit(c) ==> Empties(RunLength(c)) + [] == Empties(RunLength(c));
  }

  lemma ExpandOneMore(text: string, i: nat)
    requires i < |text| && Expand(text[..i]).Some?
    ensures var c := text[i];
            if c in PIECES || IsRunDigit(c) then
              && Expand(text[..i + 1]).Some?
              && |Expand(text[..i + 1]).value| == |Expand(text[..i]).value| + if c in PIECES then 1 else RunLength(c)
            else Expand(text) == None
    ensures text[i] in "12345678" <==> IsRunDigit(text[i])
  {
    hide Expand;
    var c := text[i];
    assert text[..i + 1] == text[..i] + [c];
    ExpandLetter(c);
    ExpandConcat(text[..i], [c]);
    assert text == text[..i + 1] + text[i + 1..];
    ExpandConcat(text[..i + 1], text[i + 1..]);
  }

  lemma AcceptedMeansDepicted(placement: string)
    ensures var ranks := Split(placement, '/');
            (|ranks| == 8 && forall k | 0 <= k < 8 :: FullRank(ranks[k]))
            <==> exists board :: IsBoard(board) && Depicts(placement, board)
  {
    var ranks := Split(placement, '/');
    SplitThenJoin(placement, '/');
    if |ranks| == 8 && forall k | 0 <= k < 8 :: FullRank(ranks[k]) {
      var board := seq(8, k requires 0 <= k < 8 => Expand(ranks[k]).value);
      forall k | 0 <= k < 8
        ensures DepictsRank(ranks[k], board[k])
      {
        ExpansionIsDepicted(ranks[k], board[k]);
      }
      assert RanksDepict(placement, ranks, board);
      assert IsBoard(board) && Depicts(placement, board);
    }
    if board :| IsBoard(board) && Depicts(placement, board) {
      var found :| RanksDepict(placement, found, board);
      RanksAreTheSplit(placement, found, board);
      forall k | 0 <= k < 8
        ensures FullRank(ranks[k])
      {
        ExpansionIsDepicted(ranks[k], board[k]);
      }
    }
  }

  // ---------- The canonical text of a board ----------

  function LeadingEmpties(rank: Rank): (n: nat)
    ensures n <= |rank| && rank[..n] == Empties(n) && (n < |rank| ==> rank[n].Piece?)
  {
    if rank == [] || rank[0].Piece? then 0
    else
      var n := LeadingEmpties(rank[1..]);
      assert rank[..n + 1] == [rank[0]] + rank[1..][..n];
      n + 1
  }

  function RenderRank(rank: Rank): string
    requires |rank| <= 8
    decreases |rank|
  {
    if rank == [] then ""
    else if rank[0].Piece? then [rank[0].c] + RenderRank(rank[1..])
    else
      var n := LeadingEmpties(rank);
      [('0' as int + n) as char] + RenderRank(rank[n..])
  }

  predicate RealPieces(rank: Rank) {
    forall k | 0 <= k < |rank| :: rank[k].Piece? ==> rank[k].c in PIECES
  }

  // No two run lengths in a row: "8", never "44".
  predicate RunsMerged(text: string) {
    forall k | 0 <= k < |text| - 1 :: !(IsRunDigit(text[k]) && IsRunDigit(text[k + 1]))
  }

  /** King, queen, rook, bishop, knight and pawn, White's in upper case. */
  lemma PieceLetters(c: char)
    ensures c in PIECES <==> c in {'K', 'Q', 'R', 'B', 'N', 'P', 'k', 'q', 'r', 'b', 'n', 'p'}
  {
  }

  lemma PiecesAreNotDigits(c: char)
    ensures c in PIECES ==> !IsRunDigit(c)
  {
  }

  /** Every rank has a text, with its runs merged, that depicts it. */
  lemma {:induction false} RenderedIsDepicted(rank: Rank)
    requires |rank| <= 8 && RealPieces(rank)
    ensures DepictsRank(RenderRank(rank), rank) && RunsMerged(RenderRank(rank))
    ensures rank != [] ==> RenderRank(rank) != "" && (rank[0].Piece? ==> !IsRunDigit(RenderRank(rank)[0]))
    decreases |rank|
  {
    if rank != [] {
      var n := if rank[0].Piece? then 1 else LeadingEmpties(rank);
      RenderedIsDepicted(rank[n..]);
      var text, rest := RenderRank(rank), RenderRank(rank[n..]);
      assert text[1..] == rest;
      PiecesAreNotDigits(text[0]);
      forall k | 0 <= k < |text| - 1
        ensures !(IsRunDigit(text[k]) && IsRunDigit(text[k + 1]))
      {
        if k > 0 {
          assert text[k] == rest[k - 1] && text[k + 1] == rest[k];
        }
      }
    }
  }

  /** Rendering undoes depicting exactly on texts with merged runs; other accepted texts are
      second spellings of the same board. */
  lemma {:induction false} CanonicalExactlyWhenMerged(text: string, rank: Rank)
    requires |rank| <= 8 && DepictsRank(text, rank)
    ensures RealPieces(rank)
    ensures RenderRank(rank) == text <==> RunsMerged(text)
    decreases |text|
  {
    if text != "" {
      var n := if text[0] in PIECES then 1 else RunLength(text[0]);
      CanonicalExactlyWhenMerged(text[1..], rank[n..]);
      DepictedPieces(text, rank);
      RenderedIsDepicted(rank);
      if RunsMerged(text) {
        assert RunsMerged(text[1..]);
        if text[0] !in PIECES {
          FirstRun(text, rank);
        }
        assert text == [text[0]] + text[1..];
      }
    }
  }

  /** Two spellings of one rank, only one of them canonical. */
  lemma EmptyRankHasTwoSpellings()
    ensures DepictsRank("44", Empties(8)) && DepictsRank("8", Empties(8))
    ensures RenderRank(Empties(8)) == "8" && !RunsMerged("44")
  {
    assert DepictsRank("4", Empties(4));
    assert RunsMerged("8") && IsRunDigit("44"[0]) && IsRunDigit("44"[1]);
    CanonicalExactlyWhenMerged("8", Empties(8));
  }

  lemma {:induction false} DepictedPieces(text: string, rank: Rank)
    requires DepictsRank(text, rank)
    ensures RealPieces(rank)
  {
    if text != "" {
      var n := if text[0] in PIECES then 1 else RunLength(text[0]);
      DepictedPieces(text[1..], rank[n..]);
      assert forall k | n <= k < |rank| :: rank[k] == rank[n..][k - n];
      assert forall k | 0 <= k < n :: rank[k] == rank[..n][k];
    }
  }

  // With merged runs the first digit is the whole leading run.
  lemma FirstRun(text: string, rank: Rank)
    requires text != "" && RunsMerged(text) && DepictsRank(text, rank) && text[0] !in PIECES
    ensures LeadingEmpties(rank) == RunLength(text[0])
  {
  }

  // ---------- Clock numerals ----------

  predicate IsDigit(c: char) {
    '0' <= c <= '9'
  }

  predicate AllDigits(s: string) {
    forall c | c in s :: IsDigit(c)
  }

  // ^(?:0|[1-9][0-9]*)$, matched in full
  predicate IsNumeral(s: string) {
    s == "0" || (s != "" && '1' <= s[0] <= '9' && AllDigits(s[1..]))
  }

  function DigitValue(c: char): nat
    requires IsDigit(c)
  {
    c as int - '0' as int
  }

  // int(s)
  function Parse(s: string): nat
    requires AllDigits(s)
  {
    if s == "" then 0 else 10 * Parse(s[..|s| - 1]) + DigitValue(s[|s| - 1])
  }

  // str(n)
  function Print(n: nat): string {
    var digit := [('0' as int + n % 10) as char];
    if n < 10 then digit else Print(n / 10) + digit
  }

  lemma {:induction false} PrintIsNumeral(n: nat)
    ensures IsNumeral(Print(n)) && AllDigits(Print(n)) && Parse(Print(n)) == n
    ensures n > 0 ==> Print(n)[0] != '0'
  {
    var digit := ('0' as int + n % 10) as char;
    assert IsDigit(digit) && DigitValue(digit) == n % 10;
    if n < 10 {
      assert Print(n) == [digit] && [digit][..0] == "";
    } else {
      PrintIsNumeral(n / 10);
      var init := Print(n / 10);
      assert Print(n) == init + [digit] && Print(n)[..|init|] == init;
      assert Print(n)[1..] == init[1..] + [digit];
      assert forall c | c in init[1..] :: c in init;
    }
  }

  /** Among digit strings the accepted numerals are exactly the fixed points of parsing and
      printing again: one spelling for each number. */
  lemma {:induction false} NumeralsAreFixedPoints(s: string)
    requires s != "" && AllDigits(s)
    ensures IsNumeral(s) <==> Print(Parse(s)) == s
  {
    if IsNumeral(s) {
      NumeralPrintsBack(s);
    } else {
      PrintIsNumeral(Parse(s));
    }
  }

  lemma SplitOffDigit(n: nat, d: nat)
    requires d < 10
    ensures (10 * n + d) / 10 == n && (10 * n + d) % 10 == d
  {
  }

  lemma {:induction false} NumeralPrintsBack(s: string)
    requires IsNumeral(s) && AllDigits(s)
    ensures Print(Parse(s)) == s
    ensures s[0] != '0' ==> Parse(s) > 0
  {
    var init, last := s[..|s| - 1], s[|s| - 1];
    assert s == init + [last];
    if init == "" {
      assert Parse(s) == DigitValue(last);
    } else {
      assert init[0] == s[0] && forall c | c in init[1..] :: c in s;
      NumeralPrintsBack(init);
      assert Parse(s) == 10 * Parse(init) + DigitValue(last);
      SplitOffDigit(Parse(init), DigitValue(last));
    }
  }

  lemma NumeralIsDigits(s: string)
    requires IsNumeral(s)
    ensures AllDigits(s)
  {
  }

  // ---------- The six fields ----------

  predicate NoRepeats(s: string) {
    forall i, j | 0 <= i < j < |s| :: s[i] != s[j]
  }

  predicate ValidCastling(s: string) {
    s == "-" || (s != "" && (forall c | c in s :: c in "KQkq") && NoRepeats(s))
  }

  // A square on the rank the side to move could capture towards.
  predicate ValidEnPassant(s: string, color: string) {
    s == "-" || (|s| == 2 && 'a' <= s[0] <= 'h' && s[1] == if color == "w" then '6' else '3')
  }

  ghost predicate ValidFields(fields: seq<string>) {
    && |fields| == 6
    && (exists board :: IsBoard(board) && Depicts(fields[0], board))
    && (fields[1] == "w" || fields[1] == "b")
    && ValidCastling(fields[2])
    && ValidEnPassant(fields[3], fields[1])
    && IsNumeral(fields[4])
    && IsNumeral(fields[5]) && fields[5] != "0"
  }

  method ValidateFields(fields: seq<string>) returns (ok: bool)
    ensures ok <==> ValidFields(fields)
  {
    if |fields| != 6 {
      return false;
    }
    var placed := ValidatePiecePlacement(fields[0]);
    if !placed || (fields[1] != "w" && fields[1] != "b") {
      return false;
    }
    var castling := fields[2];
    DistinctLetters(castling);
    if castling != "-" {
      if castling == "" || exists c | c in castling :: c !in "KQkq" {
        return false;
      }
      if |Letters(castling)| != |castling| {
        return false;
      }
    }
    var enPassant := fields[3];
    if enPassant != "-" {
      if !(|enPassant| == 2 && 'a' <= enPassant[0] <= 'h' && (enPassant[1] == '3' || enPassant[1] == '6')) {
        return false;
      }
      var expectedRank := if fields[1] == "w" then '6' else '3';
      if enPassant[1] != expectedRank {
        return false;
      }
    }
    if !IsNumeral(fields[4]) || !IsNumeral(fields[5]) {
      return false;
    }
    NumeralIsDigits(fields[5]);
    NumeralPrintsBack(fields[5]);
    return Parse(fields[5]) >= 1;
  }

  function Letters(s: string): set<char> {
    set c | c in s
  }

  /** `len(set(s)) == len(s)` says that no letter repeats. */
  lemma {:induction false} DistinctLetters(s: string)
    ensures |Letters(s)| <= |s|
    ensures |Letters(s)| == |s| <==> NoRepeats(s)
  {
    if s != "" {
      var init, last := s[..|s| - 1], s[|s| - 1];
      DistinctLetters(init);
      assert s == init + [last];
      assert Letters(s) == Letters(init) + {last};
      if last in Letters(init) {
        assert Letters(s) == Letters(init);
        var i :| 0 <= i < |init| && init[i] == last;
        assert s[i] == s[|s| - 1];
      } else {
        assert |Letters(s)| == |Letters(init)| + 1;
      }
    }
  }

  // ---------- Normalization ----------

  // str.isspace
  predicate IsSpace(c: char) {
    var n := c as int;
    || 0x09 <= n <= 0x0d || 0x1c <= n <= 0x20 || n == 0x85 || n == 0xa0 || n == 0x1680
    || 0x2000 <= n <= 0x200a || n == 0x2028 || n == 0x2029 || n == 0x202f || n == 0x205f || n == 0x3000
  }

  const SPACES := "\t\n\U{b}\U{c}\r\U{1c}\U{1d}\U{1e}\U{1f} \U{85}\U{a0}\U{1680}"
    + "\U{2000}\U{2001}\U{2002}\U{2003}\U{2004}\U{2005}\U{2006}"
    + "\U{2007}\U{2008}\U{2009}\U{200a}\U{2028}\U{2029}\U{202f}\U{205f}\U{3000}"

  /** The ranges are these 29 characters. */
  lemma SpacesListed(c: char)
    ensures |SPACES| == 29 && (IsSpace(c) <==> c in SPACES)
  {
  }

  predicate AllSpaces(s: string) {
    forall c | c in s :: IsSpace(c)
  }

  predicate IsWord(s: string) {
    s != "" && forall c | c in s :: !IsSpace(c)
  }

  function WordLength(s: string): (n: nat)
    ensures n <= |s| && (forall c | c in s[..n] :: !IsSpace(c)) && (n < |s| ==> IsSpace(s[n]))
  {
    if s == "" || IsSpace(s[0]) then 0
    else
      var n := WordLength(s[1..]);
      assert s[..n + 1] == [s[0]] + s[1..][..n];
      n + 1
  }

  // str.split()
  function Words(s: string): (words: seq<string>)
    ensures forall word | word in words :: IsWord(word)
    decreases |s|
  {
    if s == "" then []
    else if IsSpace(s[0]) then Words(s[1..])
    else [s[..WordLength(s)]] + Words(s[WordLength(s)..])
  }

  // str.strip()
  function Strip(s: string): string
    decreases |s|
  {
    if s == "" then ""
    else if IsSpace(s[0]) then Strip(s[1..])
    else if IsSpace(s[|s| - 1]) then Strip(s[..|s| - 1])
    else s
  }

  lemma WordLengthOf(word: string, rest: string)
    requires IsWord(word) && (rest == "" || IsSpace(rest[0]))
    ensures WordLength(word + rest) == |word|
  {
    var s := word + rest;
    assert forall k | 0 <= k < |word| :: s[k] == word[k] && word[k] in word;
    assert rest != "" ==> s[|word|] == rest[0];
    var run := s[..WordLength(s)];
    assert forall k | 0 <= k < |run| :: run[k] == s[k] && run[k] in run;
  }

  // `s` is these words with spaces between them, and perhaps around them.
  ghost predicate Spells(s: string, words: seq<string>)
    decreases |words|
  {
    if words == [] then AllSpaces(s)
    else exists gap, rest :: SpellsFirst(s, gap, words[0], rest) && Spells(rest, words[1..])
  }

  predicate SpellsFirst(s: string, gap: string, word: string, rest: string) {
    s == gap + word + rest && AllSpaces(gap) && IsWord(word) && (rest == "" || IsSpace(rest[0]))
  }

  lemma {:induction false} WordsSpell(s: string)
    ensures Spells(s, Words(s))
    decreases |s|
  {
    var words := Words(s);
    if s == "" {
    } else if IsSpace(s[0]) {
      WordsSpell(s[1..]);
      assert s == [s[0]] + s[1..];
      SpacesAround([s[0]], s[1..], "", words);
      assert [s[0]] + s[1..] + "" == s;
    } else {
      var n := WordLength(s);
      var word, rest := s[..n], s[n..];
      assert words == [word] + Words(rest) && word in words;
      assert rest != "" ==> rest[0] == s[n];
      WordsSpell(rest);
      assert SpellsFirst(s, "", word, rest) by {
        assert s == "" + word + rest;
      }
      assert words[0] == word && words[1..] == Words(rest);
    }
  }

  // Spaces before and after make no difference.
  lemma {:induction false} SpacesAround(pre: string, s: string, post: string, words: seq<string>)
    requires AllSpaces(pre) && AllSpaces(post) && Spells(s, words)
    ensures Spells(pre + s + post, words)
    decreases |words|
  {
    hide IsSpace;
    if words != [] {
      var gap, rest :| SpellsFirst(s, gap, words[0], rest) && Spells(rest, words[1..]);
      SpacesAround("", rest, post, words[1..]);
      assert "" + rest + post == rest + post;
      assert SpellsFirst(pre + s + post, pre + gap, words[0], rest + post) by {
        assert pre + s + post == (pre + gap) + words[0] + (rest + post);
        assert rest == "" && post != "" ==> (rest + post)[0] in post;
      }
    }
  }

  lemma {:induction false} SpelledAreTheWords(s: string, words: seq<string>)
    requires Spells(s, words)
    ensures words == Words(s)
    decreases |s|
  {
    hide IsSpace;
    if words == [] {
      if s != "" {
        assert s[0] in s && forall c | c in s[1..] :: c in s;
        SpelledAreTheWords(s[1..], []);
      }
    } else {
      var gap, rest :| SpellsFirst(s, gap, words[0], rest) && Spells(rest, words[1..]);
      if gap == "" {
        assert s == words[0] + rest && s[0] == words[0][0] && words[0][0] in words[0];
        WordLengthOf(words[0], rest);
        assert s[..|words[0]|] == words[0] && s[|words[0]|..] == rest;
        SpelledAreTheWords(rest, words[1..]);
        assert words == [words[0]] + words[1..];
      } else {
        assert s[0] == gap[0] && gap[0] in gap && forall c | c in gap[1..] :: c in gap;
        assert SpellsFirst(s[1..], gap[1..], words[0], rest) by {
          assert s[1..] == gap[1..] + words[0] + rest;
        }
        SpelledAreTheWords(s[1..], words);
      }
    }
  }

  /** str.split(): the words of a text are the one way to read it as words set off by spaces. */
  lemma WordsAreTheSplit(s: string, words: seq<string>)
    ensures Spells(s, words) <==> words == Words(s)
  {
    WordsSpell(s);
    if Spells(s, words) {
      SpelledAreTheWords(s, words);
    }
  }

  lemma {:induction false} StripTrims(s: string) returns (pre: string, post: string)
    ensures s == pre + Strip(s) + post && AllSpaces(pre) && AllSpaces(post)
    ensures Strip(s) == "" || (!IsSpace(Strip(s)[0]) && !IsSpace(Strip(s)[|Strip(s)| - 1]))
    decreases |s|
  {
    hide IsSpace;
    pre, post := "", "";
    if s == "" {
    } else if IsSpace(s[0]) {
      pre, post := StripTrims(s[1..]);
      pre := [s[0]] + pre;
    } else if IsSpace(s[|s| - 1]) {
      pre, post := StripTrims(s[..|s| - 1]);
      assert s == s[..|s| - 1] + [s[|s| - 1]];
      post := post + [s[|s| - 1]];
    }
  }

  /** str.strip() takes off spaces at both ends and nothing else, so it keeps the words. */
  lemma StripKeepsWords(s: string) returns (pre: string, post: string)
    ensures s == pre + Strip(s) + post && AllSpaces(pre) && AllSpaces(post)
    ensures Strip(s) == "" || (!IsSpace(Strip(s)[0]) && !IsSpace(Strip(s)[|Strip(s)| - 1]))
    ensures Words(Strip(s)) == Words(s)
  {
    hide IsSpace, AllSpaces, Strip, Words, Spells;
    pre, post := StripTrims(s);
    WordsSpell(Strip(s));
    SpacesAround(pre, Strip(s), post, Words(Strip(s)));
    SpelledAreTheWords(s, Words(Strip(s)));
  }

  /** Joining words with single spaces and splitting again gives the same words. */
  lemma {:induction false} JoinedWords(words: seq<string>)
    requires forall word | word in words :: IsWord(word)
    ensures Words(Join(words, ' ')) == words
  {
    if words != [] {
      var rest := if |words| == 1 then "" else [' '] + Join(words[1..], ' ');
      var s := Join(words, ' ');
      assert s == words[0] + rest;
      WordLengthOf(words[0], rest);
      assert s[..|words[0]|] == words[0] && s[|words[0]|..] == rest;
      assert s[0] == words[0][0] && words[0][0] in words[0];
      JoinedWords(words[1..]);
      if |words| > 1 {
        assert rest[1..] == Join(words[1..], ' ');
      }
      assert words == [words[0]] + words[1..];
    }
  }

  /** `printed` is what python-chess prints for the board it parsed, None when it rejects
      the text. The answer is the library's fields, single-spaced, with the en-passant field
      as the client wrote it, so a valid en-passant state is never dropped. */
  method NormalizeFen(value: string, printed: Option<string>) returns (normalized: Option<string>)
    ensures normalized.Some? <==>
            && |Strip(value)| <= 256 && ValidFields(Words(value))
            && printed.Some? && |Words(printed.value)| == 6
    ensures normalized.Some? ==> Words(normalized.value) == Words(printed.value)[3 := Words(value)[3]]
    ensures normalized.Some? ==> normalized.value == Join(Words(normalized.value), ' ')
  {
    var stripped := Strip(value);
    ghost var pre, post := StripKeepsWords(value);
    if |stripped| > MAX_FEN_LENGTH {
      return None;
    }
    var fields := Words(stripped);
    var valid := ValidateFields(fields);
    if !valid || printed.None? {
      return None;
    }
    var normalizedFields := Words(printed.value);
    if |normalizedFields| != 6 {
      return None;
    }
    normalizedFields := normalizedFields[3 := fields[3]];
    JoinedWords(normalizedFields);
    return Some(Join(normalizedFields, ' '));
  }
}

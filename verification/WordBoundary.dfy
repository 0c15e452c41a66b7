/**
 w7/src/worker/worker.h: a worker downloads its piece of a blob with 16 extra bytes, blanks
 the partial word at the front and extends the back to the next delimiter. Workers never
 talk to each other, yet together they must see every word of the blob exactly once.
 */
module WordBoundary {
  import opened Sequences
  import opened WordText

  const EXTRA_LEN: nat := 16

  /** The first delimiter at or after position i, or the end of the text. */
  function NextDelim(s: string, i: nat): (r: nat)
    requires i <= |s|
    ensures i <= r <= |s|
    ensures forall k :: i <= k < r ==> !IsDelim(s[k])
    ensures r < |s| ==> IsDelim(s[r])
    decreases |s| - i
  {
    if i == |s| || IsDelim(s[i]) then i else NextDelim(s, i + 1)
  }

  /** There is only one such position. */
  lemma {:induction false} NextDelimUnique(s: string, i: nat, r: nat)
    requires i <= r <= |s|
    requires forall k :: i <= k < r ==> !IsDelim(s[k])
    requires r < |s| ==> IsDelim(s[r])
    ensures NextDelim(s, i) == r
    decreases r - i
  {
    if i < r {
      NextDelimUnique(s, i + 1, r);
    }
  }

  function Blanks(n: nat): (s: string)
    ensures |s| == n && forall i :: 0 <= i < n ==> s[i] == ' '
  {
    seq(n, i => ' ')
  }

  function Min(a: int, b: int): int {
    if a < b then a else b
  }

  /** How many bytes the front repair blanks, when it does not run out of bytes. */
  function FrontBlanks(begin: nat, s: string): nat {
    if begin == 0 then 0 else Min(NextDelim(s, 0), EXTRA_LEN)
  }

  /** `collection.at(i)` throws: fewer than 16 bytes and no delimiter among them. */
  predicate FrontThrows(begin: nat, s: string) {
    begin != 0 && |s| < EXTRA_LEN && NextDelim(s, 0) == |s|
  }

  function FrontFixed(begin: nat, s: string): string
    requires !FrontThrows(begin, s)
  {
    var k := FrontBlanks(begin, s);
    Blanks(k) + s[k..]
  }

  /** What the repair makes of the downloaded bytes; None when it throws. */
  function Fixed(begin: nat, end: nat, s: string): Option<string>
    requires begin <= end
  {
    if FrontThrows(begin, s) then None
    else
      var t := FrontFixed(begin, s);
      if |t| > end - begin then Some(t[..NextDelim(t, end - begin)]) else Some(t)
  }

  /** `std::vector<uint8_t>`, repaired in place. */
  class ByteVector {
    var bytes: string

    constructor (bytes: string)
      ensures this.bytes == bytes
    {
      this.bytes := bytes;
    }
  }

  /** Blanks the word the piece starts in the middle of; at most 16 bytes. */
  method BlankFront(begin: nat, collection: ByteVector) returns (ok: bool)
    modifies collection
    ensures ok == !FrontThrows(begin, old(collection.bytes))
    ensures ok ==> collection.bytes == FrontFixed(begin, old(collection.bytes))
  {
    if begin == 0 {
      return true;
    }
    ghost var s := collection.bytes;
    var i := 0;
    while i < EXTRA_LEN
      invariant 0 <= i <= EXTRA_LEN && i <= |s|
      invariant forall k :: 0 <= k < i ==> !IsDelim(s[k])
      invariant collection.bytes == Blanks(i) + s[i..]
    {
      if i >= |collection.bytes| {
        NextDelimUnique(s, 0, i);
        return false;
      }
      if IsDelim(collection.bytes[i]) {
        NextDelimUnique(s, 0, i);
        break;
      }
      BlankOne(s, i);
      collection.bytes := collection.bytes[i := ' '];
      i := i + 1;
    }
    ok := true;
  }

  lemma {:induction false} BlankOne(s: string, i: nat)
    requires i < |s|
    ensures (Blanks(i) + s[i..])[i := ' '] == Blanks(i + 1) + s[i + 1..]
  {
  }

  /** Erases everything from the first delimiter at or after the end of the piece. */
  method CutBack(endpos: nat, collection: ByteVector)
    modifies collection
    ensures var t := old(collection.bytes);
            collection.bytes == if |t| > endpos then t[..NextDelim(t, endpos)] else t
  {
    ghost var t := collection.bytes;
    if |collection.bytes| > endpos {
      var i := endpos;
      while i < |collection.bytes|
        invariant endpos <= i <= |collection.bytes|
        invariant collection.bytes == t
        invariant forall k :: endpos <= k < i ==> !IsDelim(t[k])
      {
        if IsDelim(collection.bytes[i]) {
          break;
        }
        i := i + 1;
      }
      NextDelimUnique(t, endpos, i);
      collection.bytes := collection.bytes[..i];
    }
  }

  method FixWordBoundary(begin: nat, end: nat, collection: ByteVector) returns (ok: bool)
    requires begin <= end
    modifies collection
    ensures ok == Fixed(begin, end, old(collection.bytes)).Some?
    ensures ok ==> Some(collection.bytes) == Fixed(begin, end, old(collection.bytes))
  {
    ok := BlankFront(begin, collection);
    if ok {
      CutBack(end - begin, collection);
    }
  }

  /** A ranged read past the end of the blob fails; a range is cut off at the end. */
  function Download(data: string, begin: nat, len: nat): Option<string> {
    if begin >= |data| then None else Some(data[begin..Min(begin + len, |data|)])
  }

  /** The local file a piece is turned into; None when the download or the repair throws. */
  function PieceFile(data: string, begin: nat, end: nat): Option<string>
    requires begin <= end
  {
    match Download(data, begin, end - begin + EXTRA_LEN)
    case None => None
    case Some(bytes) => Fixed(begin, end, bytes)
  }

  method WritePartialDataToLocalFile(data: string, begin: nat, end: nat) returns (file: Option<string>)
    requires begin <= end
    ensures file == PieceFile(data, begin, end)
    ensures begin >= |data| ==> file == None
  {
    var len := end - begin + EXTRA_LEN;
    var downloaded := Download(data, begin, len);
    if downloaded.None? {
      return None;
    }
    var buffer := new ByteVector(downloaded.value);
    var ok := FixWordBoundary(begin, end, buffer);
    return if ok then Some(buffer.bytes) else None;
  }

  /** The words the map function will see of a piece. */
  function PieceWords(data: string, begin: nat, end: nat): seq<string>
    requires begin <= end
  {
    match PieceFile(data, begin, end)
    case None => []
    case Some(text) => Words(text)
  }

  // ----- who owns which byte -----

  /** Where ownership changes hands for a cut at x. */
  function Border(data: string, x: nat): (r: nat)
    requires x <= |data|
    ensures x <= r <= |data| || (x == 0 && r == 0)
  {
    if x == 0 then 0 else Min(NextDelim(data, x), x + EXTRA_LEN)
  }

  lemma {:induction false} NextDelimIn(data: string, lo: nat, hi: nat, i: nat)
    requires lo <= hi <= |data| && i <= hi - lo
    ensures NextDelim(data[lo..hi], i) == Min(NextDelim(data, lo + i), hi) - lo
  {
    var q := Min(NextDelim(data, lo + i), hi);
    NextDelimUnique(data[lo..hi], i, q - lo);
  }

  lemma {:induction false} BorderMonotone(data: string, x: nat, y: nat)
    requires x <= y <= |data|
    ensures Border(data, x) <= Border(data, y)
    ensures 0 < x && y <= NextDelim(data, x) ==> NextDelim(data, y) == NextDelim(data, x)
  {
    if x > 0 && y <= NextDelim(data, x) {
      NextDelimUnique(data, y, NextDelim(data, x));
    }
  }

  /** What blanking leaves of the bytes downloaded for a piece. */
  lemma {:induction false} FrontContents(data: string, begin: nat, hi: nat)
    requires begin < hi <= |data| && Min(begin + EXTRA_LEN, |data|) <= hi
    ensures var s, from := data[begin..hi], Border(data, begin);
            if FrontThrows(begin, s) then from == |data|
            else FrontBlanks(begin, s) == from - begin && from <= hi && s[from - begin..] == data[from..hi]
  {
    NextDelimIn(data, begin, hi, 0);
  }

  lemma {:induction false} NextDelimAfterBlanks(k: nat, x: string, i: nat)
    requires i <= k + |x|
    ensures NextDelim(Blanks(k) + x, i) == if i < k then i else k + NextDelim(x, i - k)
  {
    if i < k {
      assert (Blanks(k) + x)[i] == ' ';
    } else {
      NextDelimUnique(Blanks(k) + x, i, k + NextDelim(x, i - k));
    }
  }

  lemma {:induction false} CutAfterBlanks(k: nat, x: string, i: nat)
    requires i <= |x|
    ensures var t := Blanks(k) + x; t[..NextDelim(t, k + i)] == Blanks(k) + x[..NextDelim(x, i)]
  {
    NextDelimAfterBlanks(k, x, k + i);
    TakeMore(Blanks(k), x, NextDelim(x, i));
  }

  /** Where the back repair stops, when the piece keeps bytes of its own. */
  lemma {:induction false} BackStopsAfter(data: string, begin: nat, end: nat, from: nat, hi: nat)
    requires begin <= from <= end < |data| && hi == Min(end + EXTRA_LEN, |data|) && 0 < end
    ensures var t := Blanks(from - begin) + data[from..hi];
            t[..NextDelim(t, end - begin)] == Blanks(from - begin) + data[from..Border(data, end)]
  {
    CutAfterBlanks(from - begin, data[from..hi], end - from);
    DelimAfterEnd(data, from, end, hi);
    assert data[from..hi][..Border(data, end) - from] == data[from..Border(data, end)];
  }

  lemma {:induction false} DelimAfterEnd(data: string, from: nat, end: nat, hi: nat)
    requires from <= end < |data| && hi == Min(end + EXTRA_LEN, |data|) && 0 < end
    ensures NextDelim(data[from..hi], end - from) == Border(data, end) - from <= hi - from
  {
    NextDelimIn(data, from, hi, end - from);
  }

  lemma {:induction false} TakeMore(a: string, b: string, n: nat)
    requires n <= |b|
    ensures (a + b)[..|a| + n] == a + b[..n]
  {
  }

  /** Where it stops when the front repair has blanked past the end of the piece. */
  lemma {:induction false} BackStopsInBlanks(k: nat, x: string, n: nat)
    requires n < k
    ensures var t := Blanks(k) + x; t[..NextDelim(t, n)] == Blanks(n)
  {
    NextDelimAfterBlanks(k, x, n);
  }

  /** The repaired bytes of a piece: blanks, then exactly the bytes between its borders. */
  function Owned(data: string, begin: nat, end: nat): string
    requires begin < end <= |data|
  {
    var from, to := Border(data, begin), Border(data, end);
    if from <= end && from <= to then Blanks(from - begin) + data[from..to] else Blanks(end - begin)
  }

  lemma {:induction false} FixedAtEndOfBlob(data: string, begin: nat)
    requires begin < |data| && !FrontThrows(begin, data[begin..])
    ensures Fixed(begin, |data|, data[begin..]) == Some(Owned(data, begin, |data|))
  {
    FrontContents(data, begin, |data|);
    assert data[begin..|data|] == data[begin..];
    assert data[Border(data, begin)..|data|] == data[Border(data, begin)..];
  }

  lemma {:induction false} FrontIs(data: string, begin: nat, hi: nat)
    requires begin < hi <= |data| && Min(begin + EXTRA_LEN, |data|) <= hi && !FrontThrows(begin, data[begin..hi])
    ensures begin <= Border(data, begin) <= hi
    ensures FrontFixed(begin, data[begin..hi]) == Blanks(Border(data, begin) - begin) + data[Border(data, begin)..hi]
    ensures |FrontFixed(begin, data[begin..hi])| == hi - begin
  {
    FrontContents(data, begin, hi);
  }

  lemma {:induction false} FixedInside(data: string, begin: nat, end: nat, hi: nat)
    requires begin < end < |data| && hi == Min(end + EXTRA_LEN, |data|) && !FrontThrows(begin, data[begin..hi])
    ensures Fixed(begin, end, data[begin..hi]) == Some(Owned(data, begin, end))
  {
    var from := Border(data, begin);
    FrontIs(data, begin, hi);
    BorderMonotone(data, begin, end);
    if from <= end {
      BackStopsAfter(data, begin, end, from, hi);
    } else {
      BackStopsInBlanks(from - begin, data[from..hi], end - begin);
    }
  }

  /** What a piece's file holds; a piece whose repair throws owns nothing. */
  lemma {:induction false} PieceContents(data: string, begin: nat, end: nat)
    requires begin < end <= |data|
    ensures Border(data, begin) <= Border(data, end)
    ensures match PieceFile(data, begin, end)
            case None => Border(data, begin) == |data|
            case Some(text) => text == Owned(data, begin, end)
  {
    var hi := Min(end + EXTRA_LEN, |data|);
    BorderMonotone(data, begin, end);
    if FrontThrows(begin, data[begin..hi]) {
      FrontContents(data, begin, hi);
    } else if end < |data| {
      FixedInside(data, begin, end, hi);
    } else {
      assert data[begin..hi] == data[begin..];
      FixedAtEndOfBlob(data, begin);
    }
  }

  // ----- when no word is lost or broken -----

  /** The 17 bytes that end at p contain no blank, full stop or comma. */
  predicate LongRunAt(data: string, p: nat)
    requires 16 <= p < |data|
  {
    forall j :: p - 16 <= j <= p ==> data[j] != ' ' && data[j] != '.' && data[j] != ','
  }

  /** No word character comes after 16 or more bytes without delimiter (from the second byte on). */
  predicate NoLongRun(data: string) {
    forall p :: 16 < p < |data| && LongRunAt(data, p) ==> !IsWordChar(data[p])
  }

  lemma {:induction false} BorderIsClean(data: string, x: nat)
    requires NoLongRun(data) && 0 < x <= |data|
    ensures CleanCut(data[..Border(data, x)], data[Border(data, x)..])
  {
    var b := Border(data, x);
    if b < |data| && !IsDelim(data[b]) {
      assert b == x + EXTRA_LEN;
      assert LongRunAt(data, b);
    }
  }

  /** A piece that ends before its own front border owns no word characters. */
  lemma {:induction false} NothingOwned(data: string, begin: nat, end: nat)
    requires NoLongRun(data) && begin < end <= |data| && end < Border(data, begin) <= Border(data, end)
    ensures Words(data[Border(data, begin)..Border(data, end)]) == []
  {
    var from, to := Border(data, begin), Border(data, end);
    BorderMonotone(data, begin, end);
    forall p | from <= p < to ensures !IsWordChar(data[p]) {
      assert from == begin + EXTRA_LEN;
      assert LongRunAt(data, p);
    }
    NoWords(data[from..to]);
  }

  lemma {:induction false} BlanksHoldNoWords(k: nat, x: string)
    ensures Words(Blanks(k) + x) == Words(x) && Words(Blanks(k)) == []
  {
    NoWords(Blanks(k));
    WordsSplit(Blanks(k), x);
  }

  lemma {:induction false} WordsOfOwned(data: string, begin: nat, end: nat)
    requires NoLongRun(data) && begin < end <= |data| && Border(data, begin) <= Border(data, end)
    ensures Words(Owned(data, begin, end)) == Words(data[Border(data, begin)..Border(data, end)])
  {
    var from, to := Border(data, begin), Border(data, end);
    if from <= end {
      BlanksHoldNoWords(from - begin, data[from..to]);
    } else {
      BlanksHoldNoWords(end - begin, "");
      NothingOwned(data, begin, end);
    }
  }

  lemma {:induction false} PieceWordsAreOwned(data: string, begin: nat, end: nat)
    requires NoLongRun(data) && begin < end <= |data|
    ensures Border(data, begin) <= Border(data, end)
    ensures PieceWords(data, begin, end) == Words(data[Border(data, begin)..Border(data, end)])
  {
    PieceContents(data, begin, end);
    match PieceFile(data, begin, end)
    case None =>
      assert data[Border(data, begin)..Border(data, end)] == "";
    case Some(text) => WordsOfOwned(data, begin, end);
  }

  /** The cut points of a blob: strictly increasing, the last one at its end. */
  predicate ValidCuts(data: string, from: nat, cuts: seq<nat>)
    decreases cuts
  {
    if cuts == [] then from == |data|
    else from < cuts[0] <= |data| && ValidCuts(data, cuts[0], cuts[1..])
  }

  /** The words of all pieces between the cuts, each piece repaired on its own. */
  function RepairedWords(data: string, from: nat, cuts: seq<nat>): seq<string>
    requires ValidCuts(data, from, cuts)
    decreases cuts
  {
    if cuts == [] then []
    else PieceWords(data, from, cuts[0]) + RepairedWords(data, cuts[0], cuts[1..])
  }

  lemma {:induction false} WordsSplitAt(data: string, a: nat, b: nat)
    requires a <= b <= |data| && CleanCut(data[..b], data[b..])
    ensures Words(data[a..]) == Words(data[a..b]) + Words(data[b..])
  {
    assert data[a..] == data[a..b] + data[b..];
    assert a < b ==> data[a..b][b - a - 1] == data[..b][b - 1];
    WordsSplit(data[a..b], data[b..]);
  }

  lemma {:induction false} RepairedSuffix(data: string, from: nat, cuts: seq<nat>)
    requires NoLongRun(data) && ValidCuts(data, from, cuts)
    ensures from <= |data|
    ensures RepairedWords(data, from, cuts) == Words(data[Border(data, from)..])
    decreases cuts
  {
    if cuts == [] {
      assert data[Border(data, from)..] == "";
    } else {
      RepairedSuffix(data, cuts[0], cuts[1..]);
      PieceWordsAreOwned(data, from, cuts[0]);
      BorderIsClean(data, cuts[0]);
      WordsSplitAt(data, Border(data, from), Border(data, cuts[0]));
    }
  }

  /** Repair keeps the words of a blob, in order, wherever the cuts are. */
  lemma {:induction false} RepairKeepsWords(data: string, cuts: seq<nat>)
    requires NoLongRun(data) && ValidCuts(data, 0, cuts)
    ensures RepairedWords(data, 0, cuts) == Words(data)
  {
    RepairedSuffix(data, 0, cuts);
    assert data[0..] == data;
  }

  /** One of the 17 bytes that end at p is a blank, a full stop or a comma. */
  predicate DelimAround(data: string, p: nat)
    requires 16 <= p < |data|
  {
    exists j :: p - 16 <= j <= p && data[j] in " .,"
  }

  /** A blob whose undelimited runs are at most 16 bytes long can be cut anywhere. */
  lemma {:induction false} ShortRunsSuffice(data: string, cuts: seq<nat>)
    requires (forall p :: 16 <= p < |data| ==> DelimAround(data, p)) && ValidCuts(data, 0, cuts)
    ensures RepairedWords(data, 0, cuts) == Words(data)
  {
    forall p | 16 < p < |data| ensures !LongRunAt(data, p) {
      assert DelimAround(data, p);
    }
    RepairKeepsWords(data, cuts);
  }

  lemma {:induction false} LongRunBorders(data: string, c: nat)
    requires 0 < c && c + 16 < |data| && LongRunAt(data, c + 16)
    ensures Border(data, c) == c + 16 && Border(data, c + 1) == c + 16 + 1
  {
    BorderMonotone(data, c, |data|);
    NextDelimUnique(data, c + 1, NextDelim(data, c));
  }

  lemma {:induction false} LongRunBefore(data: string, c: nat)
    requires 0 < c && c + 16 < |data| && Border(data, c) == c + 16
    ensures PieceWords(data, 0, c) == Words(data[..c + 16])
  {
    PieceContents(data, 0, c);
    assert Blanks(0) + data[0..c + 16] == data[..c + 16];
  }

  lemma {:induction false} LongRunWithin(data: string, c: nat)
    requires 0 < c && c + 16 < |data| && Border(data, c) == c + 16
    ensures PieceWords(data, c, c + 1) == []
  {
    PieceContents(data, c, c + 1);
    NoWords(Blanks(1));
  }

  lemma {:induction false} LongRunAfter(data: string, c: nat)
    requires 0 < c && c + 16 < |data| && Border(data, c + 1) == c + 1 + 16
    ensures PieceWords(data, c + 1, |data|) == Words(data[c + 1 + 16..])
  {
    var n, m := |data|, c + 1 + 16;
    PieceContents(data, c + 1, n);
    match PieceFile(data, c + 1, n)
    case None =>
    case Some(text) =>
      NoWords(Blanks(16));
      assert data[m..n] == data[m..];
      WordsSplit(Blanks(16), data[m..]);
  }

  /** What a one-byte piece cut out just after c does to a long run that ends in a word character. */
  lemma {:induction false} LongRunPieces(data: string, c: nat)
    requires 0 < c && c + 16 < |data| && LongRunAt(data, c + 16)
    ensures PieceWords(data, 0, c) == Words(data[..c + 16])
    ensures PieceWords(data, c, c + 1) == []
    ensures PieceWords(data, c + 1, |data|) == Words(data[c + 16 + 1..])
  {
    LongRunBorders(data, c);
    LongRunBefore(data, c);
    LongRunWithin(data, c);
    LongRunAfter(data, c);
  }

  lemma {:induction false} RepairedThreePieces(data: string, c: nat)
    requires 0 < c && c + 1 < |data|
    ensures ValidCuts(data, 0, [c, c + 1, |data|])
    ensures RepairedWords(data, 0, [c, c + 1, |data|])
         == PieceWords(data, 0, c) + PieceWords(data, c, c + 1) + PieceWords(data, c + 1, |data|)
  {
    var n := |data|;
    assert [c, c + 1, n][1..] == [c + 1, n] && [c + 1, n][1..] == [n] && [n][1..] == [];
    assert ValidCuts(data, c + 1, [n]) && ValidCuts(data, c, [c + 1, n]);
    assert RepairedWords(data, c + 1, [n]) == PieceWords(data, c + 1, n) + [];
    assert RepairedWords(data, c, [c + 1, n]) == PieceWords(data, c, c + 1) + PieceWords(data, c + 1, n);
  }

  /** Cutting out a one-byte piece just after c loses the word character at c + 16. */
  lemma {:induction false} LongRunLosesWord(data: string, c: nat)
    requires 0 < c && c + 16 < |data|
    requires LongRunAt(data, c + 16) && IsWordChar(data[c + 16])
    ensures ValidCuts(data, 0, [c, c + 1, |data|])
    ensures multiset(RepairedWords(data, 0, [c, c + 1, |data|])) != multiset(Words(data))
  {
    var m := c + 16;
    LongRunPieces(data, c);
    RepairedThreePieces(data, c);
    DroppedCharIsMissed(data, m);
  }

  predicate KeepsWords(data: string, cuts: seq<nat>)
    requires ValidCuts(data, 0, cuts)
  {
    multiset(RepairedWords(data, 0, cuts)) == multiset(Words(data))
  }

  /** Every blob with a word character after a long run has cuts that lose it. */
  lemma {:induction false} LongRunHasBadCuts(data: string) returns (cuts: seq<nat>)
    requires !NoLongRun(data)
    ensures ValidCuts(data, 0, cuts) && !KeepsWords(data, cuts)
  {
    var p :| 16 < p < |data| && LongRunAt(data, p) && IsWordChar(data[p]);
    var c := p - 16;
    LongRunLosesWord(data, c);
    cuts := [c, c + 1, |data|];
  }

  /** Exactly which blobs may be cut anywhere. */
  lemma {:induction false} RepairIsExact(data: string)
    ensures NoLongRun(data) <==> forall cuts :: ValidCuts(data, 0, cuts) ==> KeepsWords(data, cuts)
  {
    if NoLongRun(data) {
      forall cuts | ValidCuts(data, 0, cuts) ensures KeepsWords(data, cuts) {
        RepairKeepsWords(data, cuts);
      }
    } else {
      var cuts := LongRunHasBadCuts(data);
    }
  }

  /** A word of 20 letters, cut after the first and the second: its letters are not all counted. */
  lemma {:induction false} TwentyLetters()
    ensures var data := seq(20, i => 'a'); ValidCuts(data, 0, [1, 2, 20]) && !KeepsWords(data, [1, 2, 20])
  {
    LongRunLosesWord(seq(20, i => 'a'), 1);
  }
}

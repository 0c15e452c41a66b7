/**
 What a word is. The definition is independent of how the framework finds words: a word is
 a maximal run of word characters, in lower case.
 */
module WordText {
  import opened Sequences

  /** The characters that worker.h looks for when it repairs a piece. */
  predicate IsDelim(c: char) {
    c == ' ' || c == '.' || c == ','
  }

  /** Python's `string.punctuation`. */
  predicate IsPunct(c: char) {
    '!' <= c <= '/' || ':' <= c <= '@' || '[' <= c <= '`' || '{' <= c <= '~'
  }

  predicate IsWordChar(c: char) {
    c != ' ' && c != '\n' && !IsPunct(c)
  }

  /** The input alphabet: printable ASCII and newlines. */
  predicate IsText(s: string) {
    forall i :: 0 <= i < |s| ==> s[i] == '\n' || ' ' <= s[i] <= '~'
  }

  function Lower(c: char): char {
    if 'A' <= c <= 'Z' then (c as int + 32) as char else c
  }

  function Flush(cur: string): seq<string> {
    if cur == "" then [] else [cur]
  }

  /** The words of `s`, when the word `cur` is under way in front of it. */
  function WordsFrom(cur: string, s: string): seq<string>
    decreases s
  {
    if s == "" then Flush(cur)
    else if IsWordChar(s[0]) then WordsFrom(cur + [Lower(s[0])], s[1..])
    else Flush(cur) + WordsFrom("", s[1..])
  }

  function Words(s: string): seq<string> {
    WordsFrom("", s)
  }

  /** No word runs across the border between `a` and `b`. */
  predicate CleanCut(a: string, b: string) {
    a != "" && b != "" ==> !(IsWordChar(a[|a| - 1]) && IsWordChar(b[0]))
  }

  lemma {:induction false} WordsFromSplit(cur: string, a: string, b: string)
    requires CleanCut(a, b)
    requires a == "" && cur != "" && b != "" ==> !IsWordChar(b[0])
    ensures WordsFrom(cur, a + b) == WordsFrom(cur, a) + Words(b)
    decreases a
  {
    if a == "" {
      assert a + b == b;
    } else {
      assert (a + b)[1..] == a[1..] + b;
      if IsWordChar(a[0]) {
        WordsFromSplit(cur + [Lower(a[0])], a[1..], b);
      } else {
        WordsFromSplit("", a[1..], b);
      }
    }
  }

  /** Cutting a text where no word runs across splits its list of words. */
  lemma {:induction false} WordsSplit(a: string, b: string)
    requires CleanCut(a, b)
    ensures Words(a + b) == Words(a) + Words(b)
  {
    WordsFromSplit("", a, b);
  }

  predicate NoWordChars(s: string) {
    forall i :: 0 <= i < |s| ==> !IsWordChar(s[i])
  }

  lemma {:induction false} NoWords(s: string)
    requires NoWordChars(s)
    ensures Words(s) == []
  {
    if s != "" {
      NoWords(s[1..]);
    }
  }

  // ----- counting characters: no word can be lost or invented unnoticed -----

  function WordCharCount(s: string): nat {
    if s == "" then 0 else (if IsWordChar(s[0]) then 1 else 0) + WordCharCount(s[1..])
  }

  function TotalLength(ws: seq<string>): nat {
    if ws == [] then 0 else |ws[0]| + TotalLength(ws[1..])
  }

  lemma {:induction false} TotalLengthConcat(a: seq<string>, b: seq<string>)
    ensures TotalLength(a + b) == TotalLength(a) + TotalLength(b)
  {
    if a == [] {
      assert a + b == b;
    } else {
      assert (a + b)[1..] == a[1..] + b;
      TotalLengthConcat(a[1..], b);
    }
  }

  lemma {:induction false} TotalLengthPermutes(a: seq<string>, b: seq<string>)
    requires multiset(a) == multiset(b)
    ensures TotalLength(a) == TotalLength(b)
  {
    if a == [] {
      assert |b| == |multiset(b)| == 0;
    } else {
      var k := MatchFirst(a, b);
      TotalLengthPermutes(a[1..], b[..k] + b[k + 1..]);
      TotalLengthAt(b, k);
    }
  }

  lemma {:induction false} TotalLengthAt(ws: seq<string>, k: nat)
    requires k < |ws|
    ensures TotalLength(ws) == |ws[k]| + TotalLength(ws[..k] + ws[k + 1..])
  {
    assert ws == ws[..k] + ws[k..] && ws[k..][1..] == ws[k + 1..];
    TotalLengthConcat(ws[..k], ws[k..]);
    TotalLengthConcat(ws[..k], ws[k + 1..]);
  }

  lemma {:induction false} WordCharCountConcat(a: string, b: string)
    ensures WordCharCount(a + b) == WordCharCount(a) + WordCharCount(b)
  {
    if a == "" {
      assert a + b == b;
    } else {
      assert (a + b)[1..] == a[1..] + b;
      WordCharCountConcat(a[1..], b);
    }
  }

  lemma {:induction false} WordsKeepChars(cur: string, s: string)
    ensures TotalLength(WordsFrom(cur, s)) == |cur| + WordCharCount(s)
    decreases s
  {
    if s != "" {
      if IsWordChar(s[0]) {
        WordsKeepChars(cur + [Lower(s[0])], s[1..]);
      } else {
        WordsKeepChars("", s[1..]);
        TotalLengthConcat(Flush(cur), WordsFrom("", s[1..]));
      }
    }
  }

  lemma {:induction false} WordCharCountAt(s: string, m: nat)
    requires m < |s| && IsWordChar(s[m])
    ensures WordCharCount(s) == WordCharCount(s[..m]) + 1 + WordCharCount(s[m + 1..])
  {
    assert s == s[..m] + s[m..];
    WordCharCountConcat(s[..m], s[m..]);
    assert s[m..][1..] == s[m + 1..];
  }

  /** Leaving out a single word character changes the words. */
  lemma {:induction false} DroppedCharIsMissed(s: string, m: nat)
    requires m < |s| && IsWordChar(s[m])
    ensures multiset(Words(s[..m]) + Words(s[m + 1..])) != multiset(Words(s))
  {
    var front, back := Words(s[..m]), Words(s[m + 1..]);
    WordCharCountAt(s, m);
    WordsKeepChars("", s);
    WordsKeepChars("", s[..m]);
    WordsKeepChars("", s[m + 1..]);
    TotalLengthConcat(front, back);
    if multiset(front + back) == multiset(Words(s)) {
      TotalLengthPermutes(front + back, Words(s));
      assert false;
    }
  }

  /** Every word of a printable text is non-empty and contains letters and digits only. */
  predicate IsWord(w: string) {
    w != "" && forall i :: 0 <= i < |w| ==> IsWordChar(w[i]) && ' ' < w[i] <= '~'
  }

  lemma {:induction false} WordsAreWords(cur: string, s: string)
    requires IsText(s) && (cur == "" || IsWord(cur))
    ensures forall w :: w in WordsFrom(cur, s) ==> IsWord(w)
    decreases s
  {
    if s != "" {
      if IsWordChar(s[0]) {
        WordsAreWords(cur + [Lower(s[0])], s[1..]);
      } else {
        WordsAreWords("", s[1..]);
      }
    }
  }

  /** How often each word occurs: the meaning of a word count. */
  function Count(ws: seq<string>, w: string): nat {
    multiset(ws)[w]
  }
}

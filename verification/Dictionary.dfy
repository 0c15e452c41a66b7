/** A Python `dict` from words to counts, kept in insertion order, as Python keeps it. */
module Dictionary {
  import opened WordText

  datatype Entry = Entry(key: string, n: nat)
  type Dict = seq<Entry>

  /** `d[w] = d[w] + n` when w is a key, `d[w] = n` at the end otherwise. */
  function Bump(d: Dict, w: string, n: nat): Dict {
    if d == [] then [Entry(w, n)]
    else if d[0].key == w then [Entry(w, d[0].n + n)] + d[1..]
    else [d[0]] + Bump(d[1..], w, n)
  }

  predicate HasKey(d: Dict, w: string) {
    exists i :: 0 <= i < |d| && d[i].key == w
  }

  function Sum(d: Dict, w: string): nat {
    if d == [] then 0 else (if d[0].key == w then d[0].n else 0) + Sum(d[1..], w)
  }

  predicate Proper(d: Dict) {
    (forall i, j :: 0 <= i < j < |d| ==> d[i].key != d[j].key) && forall i :: 0 <= i < |d| ==> d[i].n > 0
  }

  lemma {:induction false} BumpSum(d: Dict, w: string, n: nat, v: string)
    ensures Sum(Bump(d, w, n), v) == Sum(d, v) + if v == w then n else 0
  {
    if d != [] && d[0].key != w {
      BumpSum(d[1..], w, n, v);
      assert Bump(d, w, n)[1..] == Bump(d[1..], w, n);
    }
  }

  lemma {:induction false} BumpKeys(d: Dict, w: string, n: nat, v: string)
    ensures HasKey(Bump(d, w, n), v) <==> HasKey(d, v) || v == w
  {
    var b := Bump(d, w, n);
    if d == [] {
      assert b[0].key == w;
    } else if d[0].key == w {
      assert b[0].key == w;
      assert forall i :: 0 <= i < |d| ==> b[i].key == d[i].key;
    } else {
      BumpKeys(d[1..], w, n, v);
      assert d == [d[0]] + d[1..];
      assert b == [d[0]] + Bump(d[1..], w, n);
      assert HasKey(b, v) <==> d[0].key == v || HasKey(b[1..], v) by {
        HasKeyCons(b, v);
      }
      HasKeyCons(d, v);
    }
  }

  lemma {:induction false} HasKeyCons(d: Dict, v: string)
    requires d != []
    ensures HasKey(d, v) <==> d[0].key == v || HasKey(d[1..], v)
  {
    if HasKey(d[1..], v) {
      var i :| 0 <= i < |d[1..]| && d[1..][i].key == v;
      assert d[i + 1].key == v;
    }
    if HasKey(d, v) && d[0].key != v {
      var i :| 0 <= i < |d| && d[i].key == v;
      assert d[1..][i - 1].key == v;
    }
  }

  lemma {:induction false} BumpProper(d: Dict, w: string, n: nat)
    requires Proper(d) && n > 0
    ensures Proper(Bump(d, w, n))
  {
    if d != [] && d[0].key != w {
      BumpProper(d[1..], w, n);
      var b := Bump(d[1..], w, n);
      forall i | 0 <= i < |b| ensures b[i].key != d[0].key {
        BumpKeys(d[1..], w, n, b[i].key);
      }
    }
  }

  /** In a proper dictionary the sum for a key is its one entry. */
  lemma {:induction false} ProperSum(d: Dict, w: string, n: nat)
    requires Proper(d)
    ensures Sum(d, w) == n && n > 0 <==> Entry(w, n) in d
    ensures HasKey(d, w) <==> Sum(d, w) > 0
  {
    if d != [] {
      ProperSum(d[1..], w, n);
      HasKeyCons(d, w);
      assert d == [d[0]] + d[1..];
      if d[0].key == w {
        assert !HasKey(d[1..], w);
      }
    }
  }

  /** Counting each word of a list once. */
  function CountInto(d: Dict, ws: seq<string>): Dict
    decreases ws
  {
    if ws == [] then d else CountInto(Bump(d, ws[0], 1), ws[1..])
  }

  lemma {:induction false} CountIntoConcat(d: Dict, a: seq<string>, b: seq<string>)
    ensures CountInto(d, a + b) == CountInto(CountInto(d, a), b)
    decreases a
  {
    if a == [] {
      assert a + b == b;
    } else {
      assert (a + b)[1..] == a[1..] + b;
      CountIntoConcat(Bump(d, a[0], 1), a[1..], b);
    }
  }

  lemma {:induction false} CountIntoSum(d: Dict, ws: seq<string>, w: string)
    ensures Sum(CountInto(d, ws), w) == Sum(d, w) + Count(ws, w)
    decreases ws
  {
    if ws != [] {
      CountIntoSum(Bump(d, ws[0], 1), ws[1..], w);
      BumpSum(d, ws[0], 1, w);
      assert ws == [ws[0]] + ws[1..];
    }
  }

  lemma {:induction false} CountIntoProper(d: Dict, ws: seq<string>)
    requires Proper(d)
    ensures Proper(CountInto(d, ws))
    decreases ws
  {
    if ws != [] {
      BumpProper(d, ws[0], 1);
      CountIntoProper(Bump(d, ws[0], 1), ws[1..]);
    }
  }

  lemma {:induction false} CountIntoKeys(d: Dict, ws: seq<string>, w: string)
    ensures HasKey(CountInto(d, ws), w) <==> HasKey(d, w) || w in ws
    decreases ws
  {
    if ws != [] {
      CountIntoKeys(Bump(d, ws[0], 1), ws[1..], w);
      BumpKeys(d, ws[0], 1, w);
      assert ws == [ws[0]] + ws[1..];
    }
  }
}

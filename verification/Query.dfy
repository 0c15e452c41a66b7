/**
 The job request: the URL that w7/client.sh sends, and get_queries of
 w7/src/master/requesthandler.h, which takes it apart again.
 */
module Query {
  import opened TextFile
  import opened WordText

  /** What `operator>>` skips. */
  predicate IsBlank(c: char) {
    c == ' ' || c == '\t' || c == '\n' || c == '\r' || c as int == 11 || c as int == 12
  }

  function ReplaceAmp(s: string): (r: string)
    ensures |r| == |s|
  {
    if s == "" then "" else [if s[0] == '&' then ' ' else s[0]] + ReplaceAmp(s[1..])
  }

  /** The maximal runs of non-blank characters, with `cur` under way. */
  function TokensFrom(cur: string, s: string): seq<string>
    decreases s
  {
    if s == "" then Flush(cur)
    else if IsBlank(s[0]) then Flush(cur) + TokensFrom("", s[1..])
    else TokensFrom(cur + [s[0]], s[1..])
  }

  function Put(m: map<string, string>, token: string): map<string, string> {
    var pos := IndexOf(token, '=');
    if pos == |token| then m else m[token[..pos] := token[pos + 1..]]
  }

  function PutAll(m: map<string, string>, tokens: seq<string>): map<string, string>
    decreases tokens
  {
    if tokens == [] then m else PutAll(Put(m, tokens[0]), tokens[1..])
  }

  function Queries(dest: string): map<string, string> {
    var pos := IndexOf(dest, '?');
    if pos == |dest| then map[] else PutAll(map[], TokensFrom("", ReplaceAmp(dest[pos + 1..])))
  }

  /** `sin >> token`: skips blanks and reads up to the next one. */
  method NextToken(s: string, from: nat) returns (token: string, next: nat)
    requires from <= |s|
    ensures from <= next <= |s| && (from < |s| ==> from < next)
    ensures from == |s| ==> token == ""
    ensures token == "" ==> next == |s| && TokensFrom("", s[from..]) == []
    ensures token != "" ==> TokensFrom("", s[from..]) == [token] + TokensFrom("", s[next..])
  {
    next := from;
    while next < |s| && IsBlank(s[next])
      invariant from <= next <= |s| && TokensFrom("", s[from..]) == TokensFrom("", s[next..])
    {
      assert s[next..][1..] == s[next + 1..];
      next := next + 1;
    }
    token := "";
    while next < |s| && !IsBlank(s[next])
      invariant from <= next <= |s| && TokensFrom("", s[from..]) == TokensFrom(token, s[next..])
      invariant next < |s| && token == "" ==> !IsBlank(s[next])
      invariant from < |s| && token != "" ==> from < next
    {
      assert s[next..][1..] == s[next + 1..];
      token := token + [s[next]];
      next := next + 1;
    }
    if next < |s| {
      assert TokensFrom(token, s[next..]) == Flush(token) + TokensFrom("", s[next..][1..]);
      assert TokensFrom("", s[next..]) == Flush("") + TokensFrom("", s[next..][1..]);
    }
  }

  method GetQueries(dest: string) returns (queries: map<string, string>)
    ensures queries == Queries(dest)
  {
    queries := map[];
    var pos := IndexOf(dest, '?');
    if pos == |dest| {
      return;
    }
    var queryString := ReplaceAmpersands(dest[pos + 1..]);
    queries := ReadQueries(queryString);
  }

  /** The loop that replaces every '&' with a space. */
  method ReplaceAmpersands(original: string) returns (queryString: string)
    ensures queryString == ReplaceAmp(original)
  {
    queryString := original;
    for k := 0 to |queryString|
      invariant |queryString| == |original|
      invariant queryString == ReplaceAmp(original[..k]) + original[k..]
    {
      ReplaceStep(original, k);
      if queryString[k] == '&' {
        queryString := queryString[k := ' '];
      }
    }
    assert original[..|original|] == original;
  }

  /** The text halfway through the loop, before and after position k. */
  lemma {:induction false} ReplaceStep(s: string, k: nat)
    requires k < |s|
    ensures var now, next := ReplaceAmp(s[..k]) + s[k..], ReplaceAmp(s[..k + 1]) + s[k + 1..];
            |now| == |s| && now[k] == s[k] && next == now[k := if s[k] == '&' then ' ' else s[k]]
  {
    ReplaceAmpSnoc(s, k);
    assert s[k..] == [s[k]] + s[k + 1..];
  }

  /** The loop over the tokens; a later value of a key replaces an earlier one. */
  method ReadQueries(queryString: string) returns (queries: map<string, string>)
    ensures queries == PutAll(map[], TokensFrom("", queryString))
  {
    queries := map[];
    assert queryString[0..] == queryString;
    var token, next := NextToken(queryString, 0);
    while token != ""
      invariant next <= |queryString|
      invariant token == "" ==> PutAll(map[], TokensFrom("", queryString)) == queries
      invariant token != "" ==>
                  PutAll(map[], TokensFrom("", queryString))
                      == PutAll(queries, [token] + TokensFrom("", queryString[next..]))
      decreases |queryString| - next, |token|
    {
      var tokens := [token] + TokensFrom("", queryString[next..]);
      assert tokens[1..] == TokensFrom("", queryString[next..]);
      var pos := IndexOf(token, '=');
      if pos < |token| {
        queries := queries[token[..pos] := token[pos + 1..]];
      }
      token, next := NextToken(queryString, next);
    }
  }

  lemma {:induction false} ReplaceAmpSnoc(s: string, k: nat)
    requires k < |s|
    ensures ReplaceAmp(s[..k + 1]) == ReplaceAmp(s[..k]) + [if s[k] == '&' then ' ' else s[k]]
  {
    ReplaceAmpConcat(s[..k], [s[k]]);
    assert s[..k + 1] == s[..k] + [s[k]];
    assert [s[k]][1..] == [];
  }

  lemma {:induction false} ReplaceAmpConcat(a: string, b: string)
    ensures ReplaceAmp(a + b) == ReplaceAmp(a) + ReplaceAmp(b)
  {
    if a == "" {
      assert a + b == b;
    } else {
      assert (a + b)[1..] == a[1..] + b;
      ReplaceAmpConcat(a[1..], b);
    }
  }

  // ----- the round trip -----

  datatype Field = Field(key: string, value: string)

  function Shown(f: Field): string {
    f.key + "=" + f.value
  }

  /** The fields as the client writes them, separated by ampersands. */
  function Print(fields: seq<Field>): string {
    if fields == [] then ""
    else if |fields| == 1 then Shown(fields[0])
    else Shown(fields[0]) + "&" + Print(fields[1..])
  }

  /** Free of ampersands and of what C++ takes for white space: the blank, and tab to carriage return. */
  predicate Plain(s: string) {
    forall i :: 0 <= i < |s| ==> s[i] != '&' && s[i] != ' ' && !(9 <= s[i] as int <= 13)
  }

  predicate Sendable(fields: seq<Field>) {
    && (forall i :: 0 <= i < |fields| ==> Plain(fields[i].key) && Plain(fields[i].value) && '=' !in fields[i].key)
    && forall i, j :: 0 <= i < j < |fields| ==> fields[i].key != fields[j].key
  }

  lemma {:induction false} PlainStays(s: string)
    requires Plain(s)
    ensures ReplaceAmp(s) == s
  {
    if s != "" {
      PlainStays(s[1..]);
    }
  }

  lemma {:induction false} PlainToken(cur: string, a: string, s: string)
    requires Plain(a)
    ensures TokensFrom(cur, a + s) == TokensFrom(cur + a, s)
    decreases a
  {
    if a == "" {
      assert a + s == s && cur + a == cur;
    } else {
      assert (a + s)[1..] == a[1..] + s && (cur + [a[0]]) + a[1..] == cur + a;
      PlainToken(cur + [a[0]], a[1..], s);
    }
  }

  /** Any white space ends a token, and any run of it is skipped. */
  lemma {:induction false} WhiteSpaceSeparates(a: string, c: char, s: string)
    requires Plain(a) && (c == ' ' || 9 <= c as int <= 13)
    ensures TokensFrom("", a + [c] + s) == (if a == "" then [] else [a]) + TokensFrom("", s)
  {
    PlainToken("", a, [c] + s);
    assert a + [c] + s == a + ([c] + s) && "" + a == a;
    assert ([c] + s)[1..] == s;
  }

  function ShownAll(fields: seq<Field>): (r: seq<string>)
    ensures |r| == |fields|
  {
    if fields == [] then [] else [Shown(fields[0])] + ShownAll(fields[1..])
  }

  /** A field in front of the rest of the request is one token more. */
  lemma {:induction false} FirstToken(one: string, rest: string)
    requires Plain(one) && one != ""
    ensures TokensFrom("", ReplaceAmp(one + "&" + rest)) == [one] + TokensFrom("", ReplaceAmp(rest))
  {
    PlainStays(one);
    ReplaceAmpConcat(one, "&" + rest);
    assert one + "&" + rest == one + ("&" + rest) && ("&" + rest)[1..] == rest;
    assert ReplaceAmp("&" + rest) == [' '] + ReplaceAmp(rest);
    assert one + ([' '] + ReplaceAmp(rest)) == one + [' '] + ReplaceAmp(rest);
    WhiteSpaceSeparates(one, ' ', ReplaceAmp(rest));
  }

  lemma {:induction false} LastToken(one: string)
    requires Plain(one) && one != ""
    ensures TokensFrom("", ReplaceAmp(one)) == [one]
  {
    PlainStays(one);
    PlainToken("", one, "");
    assert one + "" == one && "" + one == one;
  }

  lemma {:induction false} PrintedTokens(fields: seq<Field>)
    requires Sendable(fields)
    ensures TokensFrom("", ReplaceAmp(Print(fields))) == ShownAll(fields)
  {
    if fields != [] {
      var rest := fields[1..];
      if rest == [] {
        LastToken(Shown(fields[0]));
      } else {
        PrintedTokens(rest);
        FirstToken(Shown(fields[0]), Print(rest));
      }
    }
  }

  /** Putting sendable fields into a map that knows none of their keys records each of them. */
  lemma {:induction false} PutFields(m: map<string, string>, fields: seq<Field>, k: string)
    requires Sendable(fields)
    ensures var r := PutAll(m, ShownAll(fields));
            && (forall i :: 0 <= i < |fields| && fields[i].key == k ==> k in r && r[k] == fields[i].value)
            && ((forall i :: 0 <= i < |fields| ==> fields[i].key != k) ==>
                (k in r <==> k in m) && (k in m ==> r[k] == m[k]))
    decreases fields
  {
    if fields != [] {
      var f := fields[0];
      IndexOfUnique(Shown(f), '=', |f.key|);
      assert Shown(f)[..|f.key|] == f.key && Shown(f)[|f.key| + 1..] == f.value;
      var m' := Put(m, Shown(f));
      assert m' == m[f.key := f.value];
      PutFields(m', fields[1..], k);
      assert ShownAll(fields)[1..] == ShownAll(fields[1..]);
      forall i | 0 <= i < |fields| && fields[i].key == k ensures i == 0 || fields[1..][i - 1] == fields[i] {
      }
    }
  }

  /** Parsing what the client prints gives back every field and nothing else; values may contain '='. */
  lemma {:induction false} QueryRoundTrip(path: string, fields: seq<Field>, k: string)
    requires '?' !in path && Sendable(fields)
    ensures var m := Queries(path + "?" + Print(fields));
            && (k in m <==> exists i :: 0 <= i < |fields| && fields[i].key == k)
            && (forall i :: 0 <= i < |fields| && fields[i].key == k ==> k in m && m[k] == fields[i].value)
  {
    var dest := path + "?" + Print(fields);
    assert forall j :: 0 <= j < |path| ==> dest[j] == path[j];
    IndexOfUnique(dest, '?', |path|);
    assert dest[|path| + 1..] == Print(fields);
    PrintedTokens(fields);
    PutFields(map[], fields, k);
  }
}

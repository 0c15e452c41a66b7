/**
 Intermediate files: w7/src/worker/worker.h names them, w7/src/worker/workerimpl.cc fills
 them, and w7/src/master/masterimpl.cc sorts them out by the number at the end of the name.
 */
module Intermediate {
  import opened Sequences
  import opened Decimal
  import opened WordText
  import opened Dictionary
  import opened TextFile
  import opened Scripts
  import opened WordBoundary
  import opened Sharding

  // ----- names -----

  function BlobName(address: string, sid: nat, spid: nat, reducerId: nat): string {
    "int_" + address + "_" + ToString(sid) + "_" + ToString(spid) + "_" + ToString(reducerId)
  }

  /** The reducer a blob is meant for; None when `std::stol` finds no number. */
  function ReducerOf(name: string): Option<int> {
    var suffix := name[AfterLast(name, '_')..];
    if IsNumber(suffix) then Some(Parse(suffix)) else None
  }

  lemma {:induction false} NumberHasNoUnderscore(n: nat)
    ensures '_' !in ToString(n)
  {
    assert forall c :: c in ToString(n) ==> IsDigit(c);
  }

  /** Reading the number after the last underscore recovers the reducer. */
  lemma {:induction false} ReducerOfBlobName(address: string, sid: nat, spid: nat, reducerId: nat)
    ensures ReducerOf(BlobName(address, sid, spid, reducerId)) == Some(reducerId)
  {
    var a, d := "int_" + address + "_" + ToString(sid) + "_" + ToString(spid), ToString(reducerId);
    NumberHasNoUnderscore(reducerId);
    AfterLastIs(a, '_', d);
    assert (a + "_" + d)[|a| + 1..] == d;
    ParseToString(reducerId);
  }

  lemma {:induction false} SplitLast(a: string, d: string, a': string, d': string)
    requires '_' !in d && '_' !in d' && a + "_" + d == a' + "_" + d'
    ensures a == a' && d == d'
  {
    AfterLastIs(a, '_', d);
    AfterLastIs(a', '_', d');
    assert a == (a + "_" + d)[..|a|] && a' == (a' + "_" + d')[..|a'|];
    assert d == (a + "_" + d)[|a| + 1..] && d' == (a' + "_" + d')[|a'| + 1..];
  }

  /** Different tasks, pieces, reducers or workers never share a name, underscores in addresses or not. */
  lemma {:induction false} BlobNameInjective(a: string, s: nat, p: nat, r: nat, a': string, s': nat, p': nat, r': nat)
    requires BlobName(a, s, p, r) == BlobName(a', s', p', r')
    ensures a == a' && s == s' && p == p' && r == r'
  {
    NumberHasNoUnderscore(s);
    NumberHasNoUnderscore(p);
    NumberHasNoUnderscore(r);
    NumberHasNoUnderscore(s');
    NumberHasNoUnderscore(p');
    NumberHasNoUnderscore(r');
    var one, one' := "int_" + a, "int_" + a';
    var two, two' := one + "_" + ToString(s), one' + "_" + ToString(s');
    var three, three' := two + "_" + ToString(p), two' + "_" + ToString(p');
    SplitLast(three, ToString(r), three', ToString(r'));
    SplitLast(two, ToString(p), two', ToString(p'));
    SplitLast(one, ToString(s), one', ToString(s'));
    ToStringInjective(r, r');
    ToStringInjective(p, p');
    ToStringInjective(s, s');
    assert a == one[4..] && a' == one'[4..];
  }

  /** The blobs one piece leaves behind, one a reducer. */
  function PieceBlobs(address: string, sid: nat, spid: nat, nReducers: nat): (r: seq<string>)
    ensures |r| == nReducers
    ensures forall i :: 0 <= i < nReducers ==> r[i] == BlobName(address, sid, spid, i)
  {
    seq(nReducers, i requires 0 <= i => BlobName(address, sid, spid, i))
  }

  /** The blobs a map task reports. */
  function TaskBlobs(address: string, sid: nat, pieces: nat, nReducers: nat): seq<string> {
    if pieces == 0 then []
    else TaskBlobs(address, sid, pieces - 1, nReducers) + PieceBlobs(address, sid, pieces - 1, nReducers)
  }

  /** The same, for one reducer. */
  function TaskBlobsFor(address: string, sid: nat, pieces: nat, reducerId: nat): seq<string> {
    if pieces == 0 then []
    else TaskBlobsFor(address, sid, pieces - 1, reducerId) + [BlobName(address, sid, pieces - 1, reducerId)]
  }

  /** The blobs of a list that dispatchReduceTasks hands to a reducer. */
  function ForReducer(names: seq<string>, reducerId: int): seq<string> {
    if names == [] then []
    else (if ReducerOf(names[0]) == Some(reducerId) then [names[0]] else []) + ForReducer(names[1..], reducerId)
  }

  lemma {:induction false} ForReducerConcat(a: seq<string>, b: seq<string>, reducerId: int)
    ensures ForReducer(a + b, reducerId) == ForReducer(a, reducerId) + ForReducer(b, reducerId)
  {
    if a == [] {
      assert a + b == b;
    } else {
      assert (a + b)[1..] == a[1..] + b && (a + b)[0] == a[0];
      ForReducerConcat(a[1..], b, reducerId);
      var one := if ReducerOf(a[0]) == Some(reducerId) then [a[0]] else [];
      Associate(one, ForReducer(a[1..], reducerId), ForReducer(b, reducerId));
    }
  }

  lemma {:induction false} ForReducerSnoc(names: seq<string>, name: string, reducerId: int)
    ensures ForReducer(names + [name], reducerId)
         == ForReducer(names, reducerId) + if ReducerOf(name) == Some(reducerId) then [name] else []
  {
    ForReducerConcat(names, [name], reducerId);
    assert [name][1..] == [];
    assert ForReducer([name], reducerId) == if ReducerOf(name) == Some(reducerId) then [name] else [];
  }

  method SelectBlobs(intBlobs: seq<string>, jobid: int) returns (reduceBlobs: seq<string>)
    ensures reduceBlobs == ForReducer(intBlobs, jobid)
  {
    reduceBlobs := [];
    for i := 0 to |intBlobs|
      invariant reduceBlobs == ForReducer(intBlobs[..i], jobid)
    {
      assert intBlobs[..i + 1] == intBlobs[..i] + [intBlobs[i]];
      ForReducerSnoc(intBlobs[..i], intBlobs[i], jobid);
      var suffix := intBlobs[i][AfterLast(intBlobs[i], '_')..];
      if !IsNumber(suffix) || Parse(suffix) != jobid {
        continue;
      }
      reduceBlobs := reduceBlobs + [intBlobs[i]];
    }
    assert intBlobs[..|intBlobs|] == intBlobs;
  }

  /** In a list with one blob a reducer, in order from `base` on, each reducer finds its own. */
  lemma {:induction false} OneForReducer(names: seq<string>, base: nat, reducerId: nat)
    requires forall i :: 0 <= i < |names| ==> ReducerOf(names[i]) == Some(base + i)
    ensures ForReducer(names, reducerId)
         == if base <= reducerId < base + |names| then [names[reducerId - base]] else []
    decreases |names|
  {
    if names != [] {
      forall i | 0 <= i < |names[1..]| ensures ReducerOf(names[1..][i]) == Some(base + 1 + i) {
        assert names[1..][i] == names[i + 1];
      }
      OneForReducer(names[1..], base + 1, reducerId);
    }
  }

  lemma {:induction false} PieceBlobReducers(address: string, sid: nat, spid: nat, n: nat)
    ensures forall i :: 0 <= i < n ==> ReducerOf(PieceBlobs(address, sid, spid, n)[i]) == Some(0 + i)
  {
    forall i | 0 <= i < n ensures ReducerOf(PieceBlobs(address, sid, spid, n)[i]) == Some(0 + i) {
      ReducerOfBlobName(address, sid, spid, i);
    }
  }

  lemma {:induction false} PieceBlobsForReducer(address: string, sid: nat, spid: nat, n: nat, reducerId: nat)
    ensures ForReducer(PieceBlobs(address, sid, spid, n), reducerId)
         == if reducerId < n then [BlobName(address, sid, spid, reducerId)] else []
  {
    PieceBlobReducers(address, sid, spid, n);
    OneForReducer(PieceBlobs(address, sid, spid, n), 0, reducerId);
  }

  /** A reducer gets exactly one blob of every piece of a task. */
  lemma {:induction false} TaskBlobsForReducer(address: string, sid: nat, pieces: nat, nReducers: nat, reducerId: nat)
    requires reducerId < nReducers
    ensures ForReducer(TaskBlobs(address, sid, pieces, nReducers), reducerId)
        == TaskBlobsFor(address, sid, pieces, reducerId)
  {
    if pieces > 0 {
      TaskBlobsForReducer(address, sid, pieces - 1, nReducers, reducerId);
      PieceBlobsForReducer(address, sid, pieces - 1, nReducers, reducerId);
      ForReducerConcat(TaskBlobs(address, sid, pieces - 1, nReducers),
          PieceBlobs(address, sid, pieces - 1, nReducers), reducerId);
    }
  }

  // ----- contents -----

  type HashFunction = string -> nat

  /** `std::hash` of the quoted word, modulo the number of reducers. */
  function Target(hash: HashFunction, nReducers: nat, w: string): nat
    requires nReducers > 0
  {
    hash(Quoted(w)) % nReducers
  }

  function Partition(d: Dict, hash: HashFunction, nReducers: nat, r: nat): Dict
    requires nReducers > 0
  {
    if d == [] then []
    else (if Target(hash, nReducers, d[0].key) == r then [d[0]] else []) + Partition(d[1..], hash, nReducers, r)
  }

  lemma {:induction false} PartitionConcat(a: Dict, b: Dict, hash: HashFunction, nReducers: nat, r: nat)
    requires nReducers > 0
    ensures Partition(a + b, hash, nReducers, r) == Partition(a, hash, nReducers, r) + Partition(b, hash, nReducers, r)
  {
    if a == [] {
      assert a + b == b;
    } else {
      var one := if Target(hash, nReducers, a[0].key) == r then [a[0]] else [];
      var x, y := Partition(a[1..], hash, nReducers, r), Partition(b, hash, nReducers, r);
      PartitionConcat(a[1..], b, hash, nReducers, r);
      assert (a + b)[1..] == a[1..] + b && (a + b)[0] == a[0];
      Associate(one, x, y);
    }
  }

  /** Exactly the entries go to file r whose quoted word hashes to r, modulo the number of reducers. */
  lemma {:induction false} PartitionMember(d: Dict, hash: HashFunction, nReducers: nat, r: nat, e: Entry)
    requires nReducers > 0
    ensures e in Partition(d, hash, nReducers, r) <==> e in d && hash("'" + e.key + "'") % nReducers == r
  {
    if d != [] {
      PartitionMember(d[1..], hash, nReducers, r, e);
      assert d == [d[0]] + d[1..];
    }
  }

  /** A partition keeps the words that hash to it, with their counts, and no others. */
  lemma {:induction false} PartitionSum(d: Dict, hash: HashFunction, nReducers: nat, r: nat, w: string)
    requires nReducers > 0
    ensures Sum(Partition(d, hash, nReducers, r), w) == if hash("'" + w + "'") % nReducers == r then Sum(d, w) else 0
    ensures WordKeys(d) ==> WordKeys(Partition(d, hash, nReducers, r))
    ensures (forall e :: e in d ==> e.n > 0) ==> forall e :: e in Partition(d, hash, nReducers, r) ==> e.n > 0
  {
    if d != [] {
      PartitionSum(d[1..], hash, nReducers, r, w);
      var p := Partition(d, hash, nReducers, r);
      var rest := Partition(d[1..], hash, nReducers, r);
      if Target(hash, nReducers, d[0].key) == r {
        assert p == [d[0]] + rest && p[1..] == rest;
      } else {
        assert p == rest;
      }
    }
  }

  /** What a map task writes for reducer r about one piece. */
  function PieceText(data: string, begin: nat, end: nat, hash: HashFunction, nReducers: nat, r: nat): string
    requires begin <= end && nReducers > 0
  {
    Format(Partition(CountInto([], PieceWords(data, begin, end)), hash, nReducers, r))
  }

  lemma {:induction false} FormattedWellFormed(d: Dict)
    requires WordKeys(d) && forall e :: e in d ==> e.n > 0
    ensures WellFormed(FormatLines(d))
  {
    if d != [] {
      ParseFormat(d[0]);
      FormattedWellFormed(d[1..]);
      assert FormatLines(d)[1..] == FormatLines(d[1..]);
    }
  }

  /** The lines of a piece's file for a reducer, and what they add up to. */
  lemma {:induction false} PieceTextMeaning(data: string, begin: nat, end: nat, hash: HashFunction,
      nReducers: nat, r: nat, w: string)
    requires begin <= end && nReducers > 0 && IsText(data)
    ensures var text := PieceText(data, begin, end, hash, nReducers, r);
            && AllLines(Lines(text)) && Flatten(Lines(text)) == text && WellFormed(Lines(text))
            && LinesSum(Lines(text), w)
               == if hash("'" + w + "'") % nReducers == r then Count(PieceWords(data, begin, end), w) else 0
  {
    var ws := PieceWords(data, begin, end);
    PieceIsText(data, begin, end);
    var d := CountInto([], ws);
    CountIntoWordKeys([], ws);
    CountIntoProper([], ws);
    CountIntoSum([], ws, w);
    PartitionSum(d, hash, nReducers, r, w);
    var p := Partition(d, hash, nReducers, r);
    FormattedSum(p, w);
    FormattedLines(p);
    FormattedWellFormed(p);
  }

  lemma {:induction false} PieceIsText(data: string, begin: nat, end: nat)
    requires begin <= end && IsText(data)
    ensures forall w :: w in PieceWords(data, begin, end) ==> IsWord(w)
  {
    match PieceFile(data, begin, end)
    case None =>
    case Some(text) =>
      var bytes := Download(data, begin, end - begin + EXTRA_LEN).value;
      var k := FrontBlanks(begin, bytes);
      var t := Blanks(k) + bytes[k..];
      assert IsText(bytes) && IsText(t);
      WordsAreWords("", text);
  }

  // ----- the worker -----

  /** A container of the storage account. */
  class BlobStore {
    var blobs: map<string, string>

    constructor ()
      ensures blobs == map[]
    {
      blobs := map[];
    }
  }

  /** The container after a piece's first n files have been uploaded. */
  function Uploaded(blobs: map<string, string>, address: string, sid: nat, spid: nat, files: seq<string>,
      n: nat): map<string, string>
    requires n <= |files|
  {
    if n == 0 then blobs
    else Uploaded(blobs, address, sid, spid, files, n - 1)[BlobName(address, sid, spid, n - 1) := files[n - 1]]
  }

  function PieceFiles(data: string, p: ShardData, hash: HashFunction, nReducers: nat): (r: seq<string>)
    requires p.begin <= p.end && nReducers > 0
    ensures |r| == nReducers
  {
    seq(nReducers, i requires 0 <= i && p.begin <= p.end && nReducers > 0 =>
                     PieceText(data, p.begin, p.end, hash, nReducers, i))
  }

  function DataOf(blobs: seq<Blob>, name: string): string {
    if blobs == [] then "" else if blobs[0].name == name then blobs[0].data else DataOf(blobs[1..], name)
  }

  /** A piece of a blob that does not exist has no words: its download fails. */
  lemma {:induction false} NoSuchBlob(blobs: seq<Blob>, name: string, begin: nat, end: nat)
    requires begin <= end && forall b :: b in blobs ==> b.name != name
    ensures PieceFile(DataOf(blobs, name), begin, end) == None && PieceWords(DataOf(blobs, name), begin, end) == []
  {
    if blobs != [] {
      NoSuchBlob(blobs[1..], name, begin, end);
    }
  }

  predicate Forward(sets: seq<ShardData>) {
    forall i :: 0 <= i < |sets| ==> sets[i].begin <= sets[i].end
  }

  /** The container after a map task has worked through its first n pieces. */
  function TaskUploaded(blobs: map<string, string>, input: seq<Blob>, address: string, sid: nat, sets: seq<ShardData>,
                        hash: HashFunction, nReducers: nat, n: nat): map<string, string>
    requires n <= |sets| && Forward(sets) && nReducers > 0
  {
    if n == 0 then blobs
    else
      var p := sets[n - 1];
      Uploaded(TaskUploaded(blobs, input, address, sid, sets, hash, nReducers, n - 1),
               address, sid, n - 1, PieceFiles(DataOf(input, p.blobName), p, hash, nReducers), nReducers)
  }

  class Worker {
    const address: string
    const hash: HashFunction
    var interFiles: seq<string>

    constructor (address: string, hash: HashFunction)
      ensures this.address == address && this.hash == hash && interFiles == []
    {
      this.address := address;
      this.hash := hash;
      interFiles := [];
    }

    /** stream_to_file, for every pair of the dictionary the map function returned. */
    method StreamToFiles(d: Dict, nReducers: nat)
      requires nReducers > 0 && interFiles == seq(nReducers, i => "")
      modifies this
      ensures |interFiles| == nReducers
      ensures forall r :: 0 <= r < nReducers ==> interFiles[r] == Format(Partition(d, hash, nReducers, r))
      ensures forall r, e :: 0 <= r < nReducers ==>
                (e in Partition(d, hash, nReducers, r) <==> e in d && hash("'" + e.key + "'") % nReducers == r)
    {
      for i := 0 to |d|
        invariant |interFiles| == nReducers
        invariant forall r :: 0 <= r < nReducers ==> interFiles[r] == Format(Partition(d[..i], hash, nReducers, r))
      {
        var word, val := "'" + d[i].key + "'", ToString(d[i].n);
        var fileNum := hash(word) % nReducers;
        forall r | 0 <= r < nReducers
          ensures Format(Partition(d[..i + 1], hash, nReducers, r))
               == interFiles[r] + if r == fileNum then FormatLine(d[i]) else ""
        {
          PartitionSnoc(d, i, hash, nReducers, r);
        }
        interFiles := interFiles[fileNum := interFiles[fileNum] + (word + ":" + val + "\n")];
      }
      assert d[..|d|] == d;
      forall r, e | 0 <= r < nReducers
        ensures e in Partition(d, hash, nReducers, r) <==> e in d && hash("'" + e.key + "'") % nReducers == r
      {
        PartitionMember(d, hash, nReducers, r, e);
      }
    }

    /** map_shard: one piece, from download to uploaded intermediate files. */
    method MapShard(data: string, p: ShardData, nReducers: nat, sid: nat, spid: nat, store: BlobStore,
        blobList: seq<string>)
      returns (blobs: seq<string>)
      requires p.begin <= p.end && nReducers > 0 && interFiles == []
      modifies this, store
      ensures interFiles == []
      ensures store.blobs
           == Uploaded(old(store.blobs), address, sid, spid, PieceFiles(data, p, hash, nReducers), nReducers)
      ensures blobs == blobList + PieceBlobs(address, sid, spid, nReducers)
    {
      interFiles := seq(nReducers, i => "");
      var outfile := WritePartialDataToLocalFile(data, p.begin, p.end);
      var d: Dict := [];
      if outfile.Some? {
        d := MapFunc(outfile.value);
      }
      StreamToFiles(d, nReducers);
      assert interFiles == PieceFiles(data, p, hash, nReducers);
      blobs := AddIntermediateFiles(nReducers, sid, spid, store, blobList);
      interFiles := [];
    }

    /** add_intermediate_file_to_blob: uploads every file and appends its name to the list. */
    method AddIntermediateFiles(nReducers: nat, sid: nat, spid: nat, store: BlobStore, blobList: seq<string>)
      returns (blobs: seq<string>)
      requires |interFiles| == nReducers
      modifies store
      ensures store.blobs == Uploaded(old(store.blobs), address, sid, spid, interFiles, nReducers)
      ensures blobs == blobList + PieceBlobs(address, sid, spid, nReducers)
    {
      ghost var before := store.blobs;
      ghost var names := PieceBlobs(address, sid, spid, nReducers);
      blobs := blobList;
      for i := 0 to nReducers
        invariant store.blobs == Uploaded(before, address, sid, spid, interFiles, i)
        invariant blobs == blobList + names[..i]
      {
        var blobName := "int_" + address + "_" + ToString(sid) + "_" + ToString(spid) + "_" + ToString(i);
        store.blobs := store.blobs[blobName := interFiles[i]];
        assert names[..i + 1] == names[..i] + [blobName];
        blobs := blobs + [blobName];
      }
      assert names[..nReducers] == names;
    }

    /** MapCallData::do_work */
    method DoMapWork(input: seq<Blob>, shardId: nat, sets: seq<ShardData>, nReducers: nat, store: BlobStore)
      returns (blobList: seq<string>)
      requires Forward(sets) && nReducers > 0 && interFiles == []
      modifies this, store
      ensures interFiles == []
      ensures blobList == TaskBlobs(address, shardId, |sets|, nReducers)
      ensures store.blobs == TaskUploaded(old(store.blobs), input, address, shardId, sets, hash, nReducers, |sets|)
    {
      blobList := [];
      ghost var before := store.blobs;
      for pieceId := 0 to |sets|
        invariant interFiles == []
        invariant blobList == TaskBlobs(address, shardId, pieceId, nReducers)
        invariant store.blobs == TaskUploaded(before, input, address, shardId, sets, hash, nReducers, pieceId)
      {
        var p := sets[pieceId];
        blobList := MapShard(DataOf(input, p.blobName), p, nReducers, shardId, pieceId, store, blobList);
      }
    }

    /** ReduceCallData::do_work: the text of the output file. */
    method DoReduceWork(names: seq<string>, store: BlobStore) returns (outText: string)
      ensures outText == OutText(Gather(store.blobs, names))
    {
      var tmpFile := "";
      for i := 0 to |names|
        invariant tmpFile == Gather(store.blobs, names[..i])
      {
        GatherSnoc(store.blobs, names, i);
        // a blob that cannot be read is skipped
        if names[i] in store.blobs {
          tmpFile := tmpFile + store.blobs[names[i]];
        }
      }
      assert names[..|names|] == names;
      var d := ReduceFunc(tmpFile);
      outText := if d.None? then "" else Format(d.value);
    }
  }

  lemma {:induction false} PartitionSnoc(d: Dict, i: nat, hash: HashFunction, nReducers: nat, r: nat)
    requires nReducers > 0 && i < |d|
    ensures Format(Partition(d[..i + 1], hash, nReducers, r))
         == Format(Partition(d[..i], hash, nReducers, r))
            + if Target(hash, nReducers, d[i].key) == r then FormatLine(d[i]) else ""
  {
    assert d[..i + 1] == d[..i] + [d[i]];
    PartitionConcat(d[..i], [d[i]], hash, nReducers, r);
    assert [d[i]][1..] == [];
    var p := Partition(d[..i], hash, nReducers, r);
    FormatConcat(p, [d[i]]);
    assert FormatLines([d[i]]) == [FormatLine(d[i])] + FormatLines([d[i]][1..]) == [FormatLine(d[i])];
    FlattenSnoc(FormatLines(p), FormatLine(d[i]));
    assert Partition([], hash, nReducers, r) == [];
    if Target(hash, nReducers, d[i].key) == r {
      assert Partition([d[i]], hash, nReducers, r) == [d[i]];
      assert Partition(d[..i + 1], hash, nReducers, r) == p + [d[i]];
    } else {
      assert Partition([d[i]], hash, nReducers, r) == [];
      assert p + [] == p;
    }
  }

  lemma {:induction false} FormatConcat(a: Dict, b: Dict)
    ensures FormatLines(a + b) == FormatLines(a) + FormatLines(b)
  {
    if a == [] {
      assert a + b == b;
    } else {
      assert (a + b)[1..] == a[1..] + b;
      FormatConcat(a[1..], b);
    }
  }

  /** A blob that cannot be read adds nothing to the reducer's input. */
  function Fetch(blobs: map<string, string>, name: string): string {
    if name in blobs then blobs[name] else ""
  }

  function Gather(blobs: map<string, string>, names: seq<string>): string {
    if names == [] then "" else Fetch(blobs, names[0]) + Gather(blobs, names[1..])
  }

  lemma {:induction false} GatherSnoc(blobs: map<string, string>, names: seq<string>, i: nat)
    requires i < |names|
    ensures Gather(blobs, names[..i + 1]) == Gather(blobs, names[..i]) + Fetch(blobs, names[i])
  {
    GatherConcat(blobs, names[..i], [names[i]]);
    assert names[..i + 1] == names[..i] + [names[i]];
    assert Gather(blobs, [names[i]]) == Fetch(blobs, names[i]) + Gather(blobs, [names[i]][1..]);
  }

  /** The output file of a reducer: empty when the user function throws. */
  function OutText(input: string): string {
    match ReduceDict(input)
    case None => ""
    case Some(d) => Format(d)
  }

  // ----- the order of the blobs -----

  lemma {:induction false} GatherConcat(store: map<string, string>, a: seq<string>, b: seq<string>)
    ensures Gather(store, a + b) == Gather(store, a) + Gather(store, b)
  {
    if a == [] {
      assert a + b == b;
    } else {
      assert (a + b)[1..] == a[1..] + b;
      GatherConcat(store, a[1..], b);
    }
  }

  /** A file of whole lines. */
  predicate WholeLines(text: string) {
    AllLines(Lines(text)) && Flatten(Lines(text)) == text
  }

  predicate AllWhole(blobs: map<string, string>, names: seq<string>) {
    forall i :: 0 <= i < |names| ==> WholeLines(Fetch(blobs, names[i]))
  }

  /** The lines of the given blobs, blob by blob. */
  function GatherLines(blobs: map<string, string>, names: seq<string>): seq<string> {
    if names == [] then [] else Lines(Fetch(blobs, names[0])) + GatherLines(blobs, names[1..])
  }

  lemma {:induction false} GatheredLines(blobs: map<string, string>, names: seq<string>)
    requires AllWhole(blobs, names)
    ensures AllLines(GatherLines(blobs, names)) && Flatten(GatherLines(blobs, names)) == Gather(blobs, names)
  {
    if names != [] {
      var first, rest := Lines(Fetch(blobs, names[0])), GatherLines(blobs, names[1..]);
      GatheredLines(blobs, names[1..]);
      assert WholeLines(Fetch(blobs, names[0]));
      FlattenConcat(first, rest);
    }
  }

  lemma {:induction false} GatherLinesConcat(blobs: map<string, string>, a: seq<string>, b: seq<string>)
    ensures GatherLines(blobs, a + b) == GatherLines(blobs, a) + GatherLines(blobs, b)
  {
    if a == [] {
      assert a + b == b;
    } else {
      assert (a + b)[1..] == a[1..] + b && (a + b)[0] == a[0];
      GatherLinesConcat(blobs, a[1..], b);
      Associate(Lines(Fetch(blobs, a[0])), GatherLines(blobs, a[1..]), GatherLines(blobs, b));
    }
  }

  lemma {:induction false} GatherLinesAt(blobs: map<string, string>, names: seq<string>, k: nat)
    requires k < |names|
    ensures multiset(GatherLines(blobs, names))
         == multiset(Lines(Fetch(blobs, names[k]))) + multiset(GatherLines(blobs, names[..k] + names[k + 1..]))
  {
    assert names == names[..k] + names[k..] && names[k..][1..] == names[k + 1..];
    GatherLinesConcat(blobs, names[..k], names[k..]);
    GatherLinesConcat(blobs, names[..k], names[k + 1..]);
  }

  lemma {:induction false} GatherLinesPermute(blobs: map<string, string>, a: seq<string>, b: seq<string>)
    requires multiset(a) == multiset(b)
    ensures multiset(GatherLines(blobs, a)) == multiset(GatherLines(blobs, b))
  {
    if a == [] {
      assert |b| == |multiset(b)| == 0;
    } else {
      var k := MatchFirst(a, b);
      GatherLinesPermute(blobs, a[1..], b[..k] + b[k + 1..]);
      GatherLinesAt(blobs, b, k);
    }
  }

  /** A reducer writes the same file in whatever order its blobs are listed. */
  lemma {:induction false} BlobOrderIrrelevant(blobs: map<string, string>, a: seq<string>, b: seq<string>)
    requires AllWhole(blobs, a) && multiset(a) == multiset(b)
    ensures OutText(Gather(blobs, a)) == OutText(Gather(blobs, b))
  {
    forall i | 0 <= i < |b| ensures WholeLines(Fetch(blobs, b[i])) {
      assert b[i] in multiset(a);
      var j :| 0 <= j < |a| && a[j] == b[i];
    }
    GatheredLines(blobs, a);
    GatheredLines(blobs, b);
    LinesOfFlatten(GatherLines(blobs, a));
    LinesOfFlatten(GatherLines(blobs, b));
    GatherLinesPermute(blobs, a, b);
    ReduceOrderIndependent(Gather(blobs, a), Gather(blobs, b));
  }

  // ----- one list a reducer -----

  function SumTo(f: nat -> nat, n: nat): nat {
    if n == 0 then 0 else SumTo(f, n - 1) + f(n - 1)
  }

  /** Two functions that differ by d at position r only. */
  lemma {:induction false} SumsDiffer(f: nat -> nat, g: nat -> nat, r: nat, d: nat, n: nat)
    requires forall k: nat :: k < n ==> f(k) == g(k) + if k == r then d else 0
    ensures SumTo(f, n) == SumTo(g, n) + if r < n then d else 0
  {
    if n > 0 {
      SumsDiffer(f, g, r, d, n - 1);
    }
  }

  /** How often the list of reducer k names a blob. */
  function NamedFor(names: seq<string>, x: string): nat -> nat {
    (k: nat) => multiset(ForReducer(names, k))[x]
  }

  /** How often the lists handed to the first n reducers name a blob, all together. */
  function HandedOut(names: seq<string>, n: nat, x: string): nat {
    SumTo(NamedFor(names, x), n)
  }

  lemma {:induction false} ForReducerFirst(names: seq<string>, r: int, reducerId: int, x: string)
    requires names != [] && ReducerOf(names[0]) == Some(r)
    ensures multiset(ForReducer(names, reducerId))[x]
         == multiset(ForReducer(names[1..], reducerId))[x] + if r == reducerId && names[0] == x then 1 else 0
  {
  }

  lemma {:induction false} HandedOutOne(names: seq<string>, r: nat, n: nat, x: string)
    requires names != [] && ReducerOf(names[0]) == Some(r)
    ensures HandedOut(names, n, x) == HandedOut(names[1..], n, x) + if r < n && names[0] == x then 1 else 0
  {
    var d := if names[0] == x then 1 else 0;
    forall k: nat | k < n ensures NamedFor(names, x)(k) == NamedFor(names[1..], x)(k) + if k == r then d else 0 {
      ForReducerFirst(names, r, k, x);
    }
    SumsDiffer(NamedFor(names, x), NamedFor(names[1..], x), r, d, n);
  }

  lemma {:induction false} NothingHandedOut(n: nat, x: string)
    ensures HandedOut([], n, x) == 0
  {
    if n > 0 {
      NothingHandedOut(n - 1, x);
    }
  }

  /** If every name ends in the number of a reducer, the reducers' lists partition the whole list. */
  lemma {:induction false} ListsPartition(names: seq<string>, n: nat, x: string)
    requires forall i :: 0 <= i < |names| ==> ReducerOf(names[i]).Some? && 0 <= ReducerOf(names[i]).value < n
    ensures HandedOut(names, n, x) == multiset(names)[x]
  {
    if names == [] {
      NothingHandedOut(n, x);
    } else {
      ListsPartition(names[1..], n, x);
      HandedOutOne(names, ReducerOf(names[0]).value, n, x);
      assert names == [names[0]] + names[1..];
    }
  }
}

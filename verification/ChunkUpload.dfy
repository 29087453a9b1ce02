/** Uploading a patch in chunks: stored as `<index>.chunk` in any order, counted, and merged by
    numeric index. */
module ChunkUpload {
  import opened Basics

  const INT_MAX := 0x7FFF_FFFF

  // ----- File names -----

  function Digit(d: nat): char
    requires d < 10
  {
    '0' + d as char
  }

  function Decimal(n: nat): (s: string)
    ensures s != "" && forall k :: 0 <= k < |s| ==> '0' <= s[k] <= '9'
  {
    if n < 10 then [Digit(n)] else Decimal(n / 10) + [Digit(n % 10)]
  }

  function Name(index: nat): string {
    Decimal(index) + ".chunk"
  }

  /** `Path.GetFileNameWithoutExtension`: up to the last dot. */
  function WithoutExtension(name: string): string {
    if '.' !in name then name
    else if name[|name| - 1] == '.' then name[..|name| - 1]
    else WithoutExtension(name[..|name| - 1])
  }

  /** `int.TryParse` on plain decimal digits. */
  function Parse(s: string): Option<nat> {
    if s == "" || exists k :: 0 <= k < |s| && !('0' <= s[k] <= '9') then None
    else if Number(s) > INT_MAX then None else Some(Number(s))
  }

  function Number(s: string): nat {
    if s == "" then 0
    else Number(s[..|s| - 1]) * 10 + if '0' <= s[|s| - 1] then s[|s| - 1] as nat - '0' as nat else 0
  }

  function Index(name: string): int {
    var i := Parse(WithoutExtension(name));
    if i.Some? then i.value else -1
  }

  lemma {:induction false} NumberOfDecimal(n: nat)
    ensures Number(Decimal(n)) == n
  {
    if n >= 10 {
      NumberOfDecimal(n / 10);
      assert Decimal(n)[..|Decimal(n)| - 1] == Decimal(n / 10);
    } else {
      assert [Digit(n)][..0] == "";
    }
  }

  lemma StripChunk(s: string)
    ensures WithoutExtension(s + ".chunk") == s
  {
    var t := s + ".chunk";
    assert t[|s|] == '.';
    assert t[..|s| + 5] == s + ".chun" && t[..|s| + 4] == s + ".chu" && t[..|s| + 3] == s + ".ch";
    assert t[..|s| + 2] == s + ".c" && t[..|s| + 1] == s + "." && t[..|s|] == s;
    assert t[..|s| + 6] == t;
    Strip(t, |s| + 6, |s|);
  }

  /** With the last dot of a prefix at d, stripping cuts there. */
  lemma {:induction false} Strip(t: string, n: nat, d: nat)
    requires d < n <= |t| && t[d] == '.' && forall k :: d < k < n ==> t[k] != '.'
    ensures WithoutExtension(t[..n]) == t[..d]
    decreases n
  {
    var u := t[..n];
    assert u[d] == '.';
    if n - 1 == d {
      assert u[..n - 1] == t[..d];
    } else {
      Strip(t, n - 1, d);
      assert u[..n - 1] == t[..n - 1];
    }
  }

  /** The index survives the way through the file name. */
  lemma IndexOfName(i: nat)
    requires i <= INT_MAX
    ensures Index(Name(i)) == i
  {
    StripChunk(Decimal(i));
    NumberOfDecimal(i);
  }

  /** Sorting by name instead would put chunk 10 before chunk 2. */
  lemma NameOrderIsWrong()
    ensures Name(10) == "10.chunk" && Name(2) == "2.chunk"
    ensures Name(10)[0] < Name(2)[0] && Index(Name(10)) > Index(Name(2))
  {
    IndexOfName(10);
    IndexOfName(2);
    assert Decimal(10) == Decimal(1) + [Digit(0)] && Decimal(1) == [Digit(1)] && Decimal(2) == [Digit(2)];
  }

  // ----- The chunk folder -----

  function AllNames(n: nat): set<string> {
    set i | 0 <= i < n :: Name(i)
  }

  lemma {:induction false} NamesAreDistinct(n: nat)
    requires n <= INT_MAX
    ensures |AllNames(n)| == n
  {
    if n == 0 {
      assert AllNames(0) == {};
    } else {
      NamesAreDistinct(n - 1);
      NamesGrow(n - 1);
      NewName(n - 1);
      OneMoreName(AllNames(n - 1), Name(n - 1));
    }
  }

  lemma NamesGrow(n: nat)
    ensures AllNames(n + 1) == AllNames(n) + {Name(n)}
  {}

  lemma OneMoreName(names: set<string>, name: string)
    requires name !in names
    ensures |names + {name}| == |names| + 1
  {}

  lemma NewName(n: nat)
    requires n <= INT_MAX
    ensures Name(n) !in AllNames(n)
  {
    forall i | 0 <= i < n ensures Name(i) != Name(n) {
      IndexOfName(i);
      IndexOfName(n);
    }
  }

  lemma SubsetOfSize<T>(a: set<T>, b: set<T>)
    requires a <= b && |a| >= |b|
    ensures a == b
  {
    assert b == a + (b - a);
  }

  /** Only chunks of the file are stored, each under its own index. */
  ghost predicate Holds(files: map<string, seq<Byte>>, pieces: seq<seq<Byte>>) {
    forall name :: name in files ==> exists i :: 0 <= i < |pieces| && name == Name(i) && files[name] == pieces[i]
  }

  /** The folder count reaches the number of chunks exactly when every index is stored. */
  lemma CountMeansComplete(files: map<string, seq<Byte>>, pieces: seq<seq<Byte>>)
    requires Holds(files, pieces) && |pieces| <= INT_MAX
    ensures |files| >= |pieces| <==> files.Keys == AllNames(|pieces|)
    ensures |files| <= |pieces|
  {
    var n := |pieces|;
    NamesAreDistinct(n);
    assert files.Keys <= AllNames(n);
    assert |files| == |files.Keys|;
    SmallerSubset(files.Keys, AllNames(n));
    if |files| >= n {
      SubsetOfSize(files.Keys, AllNames(n));
    }
  }

  // ----- Merging -----

  datatype Entry = Entry(file: string, index: int)

  function Indexed(listing: seq<string>): seq<Entry> {
    if listing == [] then []
    else
      var e := Entry(listing[0], Index(listing[0]));
      (if e.index >= 0 then [e] else []) + Indexed(listing[1..])
  }

  /** `OrderBy(x => x.Index)`, which is stable. */
  function Inserted(e: Entry, sorted: seq<Entry>): (r: seq<Entry>)
    ensures |r| == |sorted| + 1
  {
    if sorted == [] || e.index <= sorted[0].index then [e] + sorted
    else [sorted[0]] + Inserted(e, sorted[1..])
  }

  function OrderByIndex(entries: seq<Entry>): (r: seq<Entry>)
    ensures |r| == |entries|
  {
    if entries == [] then [] else Inserted(entries[0], OrderByIndex(entries[1..]))
  }

  ghost predicate Ordered(entries: seq<Entry>) {
    forall j, k :: 0 <= j < k < |entries| ==> entries[j].index <= entries[k].index
  }

  lemma InsertedFrom(e: Entry, sorted: seq<Entry>, x: Entry)
    requires x in Inserted(e, sorted)
    ensures x == e || x in sorted
  {}

  lemma {:induction false} InsertedKeeps(e: Entry, sorted: seq<Entry>)
    ensures multiset(Inserted(e, sorted)) == multiset(sorted) + multiset{e}
  {
    if sorted == [] || e.index <= sorted[0].index {
    } else {
      InsertedKeeps(e, sorted[1..]);
      assert sorted == [sorted[0]] + sorted[1..];
    }
  }

  lemma {:induction false} InsertedIsOrdered(e: Entry, sorted: seq<Entry>)
    requires Ordered(sorted)
    ensures Ordered(Inserted(e, sorted))
  {
    if sorted == [] || e.index <= sorted[0].index {
    } else {
      InsertedIsOrdered(e, sorted[1..]);
      var rest := Inserted(e, sorted[1..]);
      forall k | 0 <= k < |rest| ensures sorted[0].index <= rest[k].index {
        InsertedFrom(e, sorted[1..], rest[k]);
      }
    }
  }

  lemma {:induction false} OrderKeeps(entries: seq<Entry>)
    ensures multiset(OrderByIndex(entries)) == multiset(entries)
  {
    if entries != [] {
      OrderKeeps(entries[1..]);
      InsertedKeeps(entries[0], OrderByIndex(entries[1..]));
      assert entries == [entries[0]] + entries[1..];
    }
  }

  lemma {:induction false} OrderIsOrdered(entries: seq<Entry>)
    ensures Ordered(OrderByIndex(entries)) && multiset(OrderByIndex(entries)) == multiset(entries)
  {
    OrderKeeps(entries);
    if entries != [] {
      OrderIsOrdered(entries[1..]);
      InsertedIsOrdered(entries[0], OrderByIndex(entries[1..]));
    }
  }

  /** The entries with one index, in their order. */
  function WithIndex(entries: seq<Entry>, index: int): seq<Entry> {
    if entries == [] then []
    else (if entries[0].index == index then [entries[0]] else []) + WithIndex(entries[1..], index)
  }

  lemma {:induction false} InsertedInFront(e: Entry, sorted: seq<Entry>, index: int)
    ensures WithIndex(Inserted(e, sorted), index) ==
            (if e.index == index then [e] else []) + WithIndex(sorted, index)
  {
    if sorted == [] || e.index <= sorted[0].index {
      WithIndexFirst(e, sorted, index);
    } else {
      var first, rest := sorted[0], sorted[1..];
      InsertedInFront(e, rest, index);
      WithIndexFirst(first, Inserted(e, rest), index);
      WithIndexFirst(first, rest, index);
      assert sorted == [first] + rest;
      if e.index == index {
        assert first.index != index;
      }
    }
  }

  lemma WithIndexFirst(e: Entry, rest: seq<Entry>, index: int)
    ensures WithIndex([e] + rest, index) == if e.index == index then [e] + WithIndex(rest, index)
                                            else WithIndex(rest, index)
  {
    assert ([e] + rest)[1..] == rest;
  }

  /** Ordering is stable: entries with the same index stay as they were listed. */
  lemma {:induction false} OrderIsStable(entries: seq<Entry>, index: int)
    ensures WithIndex(OrderByIndex(entries), index) == WithIndex(entries, index)
  {
    if entries != [] {
      OrderIsStable(entries[1..], index);
      InsertedInFront(entries[0], OrderByIndex(entries[1..]), index);
    }
  }

  /** Files without an index in their name are left out, and no others. */
  lemma {:induction false} IndexedIff(listing: seq<string>, e: Entry)
    ensures e in Indexed(listing) <==> e.file in listing && e.index == Index(e.file) >= 0
  {
    if listing != [] {
      IndexedIff(listing[1..], e);
    }
  }

  /** The folder's files, each once, in whatever order the file system lists them. */
  ghost predicate Listing(listing: seq<string>, names: set<string>) {
    multiset(listing) == multiset(names)
  }

  function Contents(files: map<string, seq<Byte>>, entries: seq<Entry>): seq<seq<Byte>>
    requires forall k :: 0 <= k < |entries| ==> entries[k].file in files
  {
    seq(|entries|, k requires 0 <= k < |entries| => files[entries[k].file])
  }

  // ----- The merged file is the original -----

  lemma {:induction false} TwiceCounts<T>(s: seq<T>, j: nat, k: nat)
    requires j < k < |s| && s[j] == s[k]
    ensures multiset(s)[s[j]] >= 2
  {
    assert s == s[..k] + [s[k]] + s[k + 1..];
    assert s[j] == s[..k][j] && s[j] in multiset(s[..k]);
  }

  lemma {:induction false} DistinctCounts<T>(s: seq<T>, x: T)
    requires forall j, k :: 0 <= j < k < |s| ==> s[j] != s[k]
    ensures multiset(s)[x] <= 1
  {
    if s != [] {
      DistinctCounts(s[1..], x);
      assert s == [s[0]] + s[1..];
      if x == s[0] {
        assert x !in multiset(s[1..]);
      }
    }
  }

  lemma {:induction false} IndexedAll(listing: seq<string>)
    requires forall k :: 0 <= k < |listing| ==> Index(listing[k]) >= 0
    ensures |Indexed(listing)| == |listing|
    ensures forall k :: 0 <= k < |listing| ==> Indexed(listing)[k] == Entry(listing[k], Index(listing[k]))
  {
    if listing != [] {
      IndexedAll(listing[1..]);
    }
  }

  /** Ordered, without repetition, and within 0..n-1: then the k-th index is k. */
  ghost predicate Ranked(entries: seq<Entry>) {
    && (forall j, k :: 0 <= j < k < |entries| ==> entries[j].index < entries[k].index)
    && (forall k :: 0 <= k < |entries| ==> 0 <= entries[k].index < |entries|)
  }

  lemma {:induction false} AtLeast(entries: seq<Entry>, k: nat)
    requires Ranked(entries) && k < |entries|
    ensures entries[k].index >= k
  {
    if k > 0 {
      AtLeast(entries, k - 1);
      assert entries[k - 1].index < entries[k].index;
    }
  }

  lemma {:induction false} AtMost(entries: seq<Entry>, k: nat)
    requires Ranked(entries) && k < |entries|
    ensures entries[k].index <= k
    decreases |entries| - k
  {
    if k < |entries| - 1 {
      AtMost(entries, k + 1);
      assert entries[k].index < entries[k + 1].index;
    }
  }

  /** Every entry names the chunk of its own index. */
  ghost predicate Named(entries: seq<Entry>, n: nat) {
    forall k :: 0 <= k < |entries| ==> 0 <= entries[k].index < n && entries[k].file == Name(entries[k].index)
  }

  lemma OrderedIsRanked(entries: seq<Entry>, o: seq<Entry>)
    requires Named(entries, |entries|) && multiset(o) == multiset(entries) && Ordered(o)
    requires forall j, k :: 0 <= j < k < |entries| ==> entries[j] != entries[k]
    ensures |o| == |entries| && Named(o, |o|) && Ranked(o)
  {
    assert |o| == |multiset(o)| == |multiset(entries)| == |entries|;
    forall k | 0 <= k < |o| ensures o[k] in multiset(entries) {
      assert o[k] in multiset(o);
    }
    forall j, k | 0 <= j < k < |o| ensures o[j].index < o[k].index {
      if o[j].index == o[k].index {
        assert o[j] == o[k];
        TwiceCounts(o, j, k);
        DistinctCounts(entries, o[j]);
      }
    }
  }

  lemma ListedIndex(listing: seq<string>, n: nat, k: nat)
    requires n <= INT_MAX && Listing(listing, AllNames(n)) && k < |listing|
    ensures 0 <= Index(listing[k]) < n && listing[k] == Name(Index(listing[k]))
  {
    assert listing[k] in multiset(listing);
    var i :| 0 <= i < n && listing[k] == Name(i);
    IndexOfName(i);
  }

  lemma ListedOnce(listing: seq<string>, names: set<string>, j: nat, k: nat)
    requires Listing(listing, names) && j < k < |listing|
    ensures listing[j] != listing[k]
  {
    if listing[j] == listing[k] {
      TwiceCounts(listing, j, k);
    }
  }

  /** In whatever order the folder of a complete upload is listed, ordering by numeric index gives
      the chunks 0, 1, ..., n-1. */
  lemma OrderFindsAll(listing: seq<string>, n: nat)
    requires n <= INT_MAX && Listing(listing, AllNames(n))
    ensures var o := OrderByIndex(Indexed(listing));
            |o| == n && forall k :: 0 <= k < n ==> o[k] == Entry(Name(k), k)
  {
    NamesAreDistinct(n);
    assert |listing| == |multiset(listing)| == |AllNames(n)|;
    forall k | 0 <= k < |listing| ensures 0 <= Index(listing[k]) < n && listing[k] == Name(Index(listing[k])) {
      ListedIndex(listing, n, k);
    }
    var entries := Indexed(listing);
    IndexedAll(listing);
    forall j, k | 0 <= j < k < |entries| ensures entries[j] != entries[k] {
      ListedOnce(listing, AllNames(n), j, k);
    }
    var o := OrderByIndex(entries);
    OrderIsOrdered(entries);
    OrderedIsRanked(entries, o);
    RankedIsAll(o);
  }

  lemma RankedIsAll(o: seq<Entry>)
    requires Ranked(o) && Named(o, |o|)
    ensures forall k :: 0 <= k < |o| ==> o[k] == Entry(Name(k), k)
  {
    forall k | 0 <= k < |o| ensures o[k] == Entry(Name(k), k) {
      AtLeast(o, k);
      AtMost(o, k);
    }
  }

  // ----- The server -----

  datatype Response = BadRequest | ChunkStored | Complete

  /** The chunk folder of one upload. */
  class ChunksFolder {
    var files: map<string, seq<Byte>>

    /** `DeployPatchServer`, as far as the folder goes. */
    method DeployPatchServer(chunkIndex: nat, totalChunks: nat, chunk: seq<Byte>) returns (r: Response)
      modifies this
      ensures chunk == [] ==> r == BadRequest && files == old(files)
      ensures chunk != [] ==>
                && files == old(files)[Name(chunkIndex) := chunk]
                && r == (if |files| < totalChunks then ChunkStored else Complete)
    {
      if |chunk| == 0 {
        return BadRequest;
      }
      files := files[Name(chunkIndex) := chunk];
      var uploadedChunks := |files|;
      if uploadedChunks < totalChunks {
        return ChunkStored;
      }
      return Complete;
    }

    /** `MergeChunks`; None is the exception for a folder without chunks. */
    method MergeChunks(listing: seq<string>) returns (outFile: Option<seq<Byte>>)
      requires Listing(listing, files.Keys)
      ensures forall k :: 0 <= k < |OrderByIndex(Indexed(listing))| ==> OrderByIndex(Indexed(listing))[k].file in files
      ensures outFile == if Indexed(listing) == [] then None
                         else Some(Concat(Contents(files, OrderByIndex(Indexed(listing)))))
    {
      var chunkFiles := OrderByIndex(Indexed(listing));
      OrderedFromListing(files, listing);
      if chunkFiles == [] {
        return None;
      }
      ghost var parts := Contents(files, chunkFiles);
      var out := [];
      for k := 0 to |chunkFiles|
        invariant out == Concat(parts[..k])
      {
        ConcatAppend(parts[..k], parts[k]);
        assert parts[..k + 1] == parts[..k] + [parts[k]];
        out := out + files[chunkFiles[k].file];
      }
      assert parts[..|chunkFiles|] == parts;
      return Some(out);
    }

    /** `HandleServerPatchProcess`: merge if the folder still holds the announced number of chunks.
        Otherwise the folder is dropped; it is kept if no patch folder is configured on the server,
        and if the merge throws. */
    method Process(serverSendChunks: nat, configured: bool, listing: seq<string>, ghost pieces: seq<seq<Byte>>)
      returns (merged: Option<seq<Byte>>)
      requires Listing(listing, files.Keys)
      modifies this
      ensures |old(files)| != serverSendChunks || !configured ==> merged == None
      ensures (&& configured && |old(files)| == serverSendChunks == |pieces|
               && 0 < |pieces| <= INT_MAX && Holds(old(files), pieces)) ==> merged == Some(Concat(pieces))
      ensures files == if |old(files)| == serverSendChunks && merged == None then old(files) else map[]
    {
      if |files| != serverSendChunks {
        files := map[];
        return None;
      }
      if !configured {
        return None;
      }
      merged := MergeChunks(listing);
      if |files| == |pieces| && 0 < |pieces| <= INT_MAX && Holds(files, pieces) {
        MergeRebuilds(files, listing, pieces);
      }
      if merged == None {
        return;
      }
      files := map[];
    }

    /** Any number of sends, in any order and with repetitions: the reply is `Complete` exactly
        when no index is missing, and then processing rebuilds the file. */
    method Upload(pieces: seq<seq<Byte>>, sends: seq<nat>) returns (r: Response)
      requires files == map[] && |pieces| <= INT_MAX
      requires forall k :: 0 <= k < |pieces| ==> pieces[k] != []
      requires sends != [] && forall k :: 0 <= k < |sends| ==> sends[k] < |pieces|
      modifies this
      ensures Holds(files, pieces)
      ensures files.Keys == set k | 0 <= k < |sends| :: Name(sends[k])
      ensures r == Complete <==> files.Keys == AllNames(|pieces|)
    {
      var k := 0;
      r := ChunkStored;
      while k < |sends|
        invariant 0 <= k <= |sends|
        invariant Holds(files, pieces)
        invariant files.Keys == set i | 0 <= i < k :: Name(sends[i])
        invariant k > 0 ==> r == if |files| < |pieces| then ChunkStored else Complete
      {
        r := DeployPatchServer(sends[k], |pieces|, pieces[sends[k]]);
        k := k + 1;
      }
      CountMeansComplete(files, pieces);
    }
  }

  /** Every entry to be merged is a file of the folder. */
  lemma OrderedFromListing(files: map<string, seq<Byte>>, listing: seq<string>)
    requires Listing(listing, files.Keys)
    ensures forall k :: 0 <= k < |OrderByIndex(Indexed(listing))| ==> OrderByIndex(Indexed(listing))[k].file in files
  {
    var o := OrderByIndex(Indexed(listing));
    OrderIsOrdered(Indexed(listing));
    forall k | 0 <= k < |o| ensures o[k].file in files {
      assert o[k] in multiset(o);
      IndexedFiles(listing, o[k]);
      assert o[k].file in multiset(listing);
    }
  }

  lemma {:induction false} IndexedFiles(listing: seq<string>, e: Entry)
    requires e in Indexed(listing)
    ensures e.file in listing
  {
    if e != Entry(listing[0], Index(listing[0])) {
      IndexedFiles(listing[1..], e);
    }
  }

  lemma HeldPiece(files: map<string, seq<Byte>>, pieces: seq<seq<Byte>>, k: nat)
    requires Holds(files, pieces) && k < |pieces| <= INT_MAX && Name(k) in files
    ensures files[Name(k)] == pieces[k]
  {
    var i :| 0 <= i < |pieces| && Name(k) == Name(i) && files[Name(k)] == pieces[i];
    IndexOfName(i);
    IndexOfName(k);
  }

  lemma OrderedPieces(files: map<string, seq<Byte>>, pieces: seq<seq<Byte>>, o: seq<Entry>)
    requires Holds(files, pieces) && |o| == |pieces| <= INT_MAX
    requires forall k :: 0 <= k < |o| ==> o[k].file == Name(k) && o[k].file in files
    ensures Contents(files, o) == pieces
  {
    forall k | 0 <= k < |pieces| ensures files[o[k].file] == pieces[k] {
      HeldPiece(files, pieces, k);
    }
  }

  /** Merging a complete folder rebuilds the file. */
  lemma MergeRebuilds(files: map<string, seq<Byte>>, listing: seq<string>, pieces: seq<seq<Byte>>)
    requires Holds(files, pieces) && |files| == |pieces| && 0 < |pieces| <= INT_MAX
    requires Listing(listing, files.Keys)
    ensures var o := OrderByIndex(Indexed(listing));
            (forall k :: 0 <= k < |o| ==> o[k].file in files) && Indexed(listing) != [] && Contents(files, o) == pieces
  {
    var o := OrderByIndex(Indexed(listing));
    CountMeansComplete(files, pieces);
    OrderFindsAll(listing, |pieces|);
    OrderedFromListing(files, listing);
    OrderedPieces(files, pieces, o);
  }
}

/** The chunked ingest of cli/nubi_cli/bridge_agent.py with the uploader of bridge_sources.py. */
module Ingest {
  import opened Wrappers

  const CHUNK_SIZE := 1048576

  /**
   * An open source file. Reads may be short; `broken` is the position at which reading raises, if it does: behind
   * the end of the data it never does.
   */
  class Handle {
    const data: seq<bv8>
    const broken: Option<nat>
    var pos: nat
    var closed: bool

    constructor (data: seq<bv8>, broken: Option<nat>)
      ensures this.data == data && this.broken == broken && pos == 0 && !closed
    {
      this.data, this.broken, pos, closed := data, broken, 0, false;
    }

    predicate Valid()
      reads this
    {
      pos <= |data| && (broken.Some? ==> pos <= broken.value)
    }

    /** None when the read raises; an empty chunk only at the end of the file. */
    method Read(n: nat) returns (r: Option<seq<bv8>>)
      requires n > 0 && Valid()
      modifies this`pos
      ensures Valid() && old(pos) <= pos
      ensures r.None? <==> broken == Some(old(pos))
      ensures r.None? ==> pos == old(pos)
      ensures r.Some? ==> r.value == data[old(pos)..pos] && |r.value| <= n
      ensures r.Some? ==> (r.value == [] <==> old(pos) == |data|)
    {
      if broken == Some(pos) {
        return None;
      }
      var k: nat := 0;
      if pos < |data| {
        k :| 0 < k <= n && pos + k <= |data| && (broken.Some? ==> pos + k <= broken.value);
      }
      r := Some(data[pos..pos + k]);
      pos := pos + k;
    }

    method Close()
      modifies this`closed
      ensures closed
    {
      closed := true;
    }
  }

  /** The whole file can be read. */
  predicate Readable(h: Handle) {
    h.broken.Some? ==> h.broken.value > |h.data|
  }

  /** A staging target: the number of bytes it takes before it breaks the transfer off, if it does, and its answer. */
  datatype Server = Server(room: Option<nat>, ok: bool)

  predicate Takes(server: Server, size: nat) {
    server.room.Some? ==> size <= server.room.value
  }

  // ----- grants -----

  /** What a grant may hold for one path. */
  datatype Capability = Object(url: Option<string>) | Text(text: string) | Other

  datatype StagingGrant = StagingGrant(uploads: map<string, Capability>, urls: map<string, Capability>)

  /** `_url_for` */
  function UrlFor(g: StagingGrant, path: string): Option<string> {
    if path in g.uploads && g.uploads[path].Object? then g.uploads[path].url
    else if path in g.uploads && g.uploads[path].Text? then Some(g.uploads[path].text)
    else if path in g.urls && g.urls[path].Text? then Some(g.urls[path].text)
    else None
  }

  /** A grant names a target for a path in one of three ways, a flat form only where there is no other. */
  lemma UrlExactly(g: StagingGrant, path: string, url: string)
    ensures UrlFor(g, path) == Some(url) <==>
            || (path in g.uploads && (g.uploads[path] == Object(Some(url)) || g.uploads[path] == Text(url)))
            || ((path in g.uploads ==> g.uploads[path] == Other) && path in g.urls && g.urls[path] == Text(url))
  {
  }

  // ----- digests -----

  /** A digest is a fold of one step over the bytes; feeding it in pieces must not matter. */
  function Digest<S>(step: (S, bv8) -> S, s: S, bytes: seq<bv8>): S {
    if bytes == [] then s else step(Digest(step, s, bytes[..|bytes| - 1]), bytes[|bytes| - 1])
  }

  lemma {:induction false} DigestConcat<S>(step: (S, bv8) -> S, s: S, a: seq<bv8>, b: seq<bv8>)
    ensures Digest(step, s, a + b) == Digest(step, Digest(step, s, a), b)
  {
    if b == [] {
      assert a + b == a;
    } else {
      assert (a + b)[..|a + b| - 1] == a + b[..|b| - 1];
      DigestConcat(step, s, a, b[..|b| - 1]);
    }
  }

  function Flatten(chunks: seq<seq<bv8>>): seq<bv8> {
    if chunks == [] then [] else Flatten(chunks[..|chunks| - 1]) + chunks[|chunks| - 1]
  }

  // ----- one file -----

  /** The outcome of one upload: bytes written and final digest, or an exception. */
  datatype Upload<S> = Done(written: nat, digest: S) | Raised

  /**
   * An upload succeeds: the grant names a target, the file can be read to its end, and the target takes all of it
   * and approves. How the reads cut the file does not matter.
   */
  predicate CanUpload(servers: string -> Server, g: StagingGrant, path: string, h: Handle) {
    match UrlFor(g, path)
    case None => false
    case Some(url) => url != "" && Readable(h) && Takes(servers(url), |h.data|) && servers(url).ok
  }

  /** One more chunk, read from `before` to `after`, in the body and in the digest. */
  lemma OneChunk<S>(step: (S, bv8) -> S, init: S, data: seq<bv8>, before: nat, after: nat, body: seq<seq<bv8>>,
                    chunk: seq<bv8>)
    requires before <= after <= |data| && chunk == data[before..after] && Flatten(body) == data[..before]
    ensures Flatten(body + [chunk]) == data[..after]
    ensures Digest(step, Digest(step, init, data[..before]), chunk) == Digest(step, init, data[..after])
  {
    assert (body + [chunk])[..|body|] == body;
    assert data[..after] == data[..before] + chunk;
    DigestConcat(step, init, data[..before], chunk);
  }

  /**
   * Drains the chunk iterator into the request body. On success the body is the whole file in
   * non-empty chunks of bounded size, and count and digest are those of the whole file.
   */
  method UploadFile<S>(step: (S, bv8) -> S, init: S, servers: string -> Server, g: StagingGrant, path: string,
                       h: Handle)
    returns (r: Upload<S>, body: seq<seq<bv8>>)
    requires h.pos == 0
    modifies h`pos
    ensures forall i :: 0 <= i < |body| ==> 0 < |body[i]| <= CHUNK_SIZE
    ensures Flatten(body) <= h.data
    ensures r.Done? <==> CanUpload(servers, g, path, h)
    ensures r.Done? ==> Flatten(body) == h.data && r.written == |h.data| && r.digest == Digest(step, init, h.data)
  {
    body := [];
    var url := UrlFor(g, path);
    if url.None? || url.value == "" {
      return Raised, body;
    }
    var server := servers(url.value);
    var written, hasher := 0, init;
    var done := false;
    while !done
      invariant h.Valid() && written == h.pos && Takes(server, h.pos)
      invariant Flatten(body) == h.data[..h.pos]
      invariant hasher == Digest(step, init, h.data[..h.pos])
      invariant forall i :: 0 <= i < |body| ==> 0 < |body[i]| <= CHUNK_SIZE
      invariant done ==> h.pos == |h.data| && Readable(h)
      decreases |h.data| - h.pos, !done
    {
      ghost var before := h.pos;
      var chunk := h.Read(CHUNK_SIZE);
      if chunk.None? {
        return Raised, body;
      }
      if chunk.value == [] {
        done := true;
      } else {
        OneChunk(step, init, h.data, before, h.pos, body, chunk.value);
        hasher := Digest(step, hasher, chunk.value);
        written := written + |chunk.value|;
        if !Takes(server, written) {
          return Raised, body;
        }
        body := body + [chunk.value];
      }
    }
    assert h.data[..h.pos] == h.data;
    r := if server.ok then Done(written, hasher) else Raised;
  }

  // ----- a task -----

  datatype Entry<S> = Entry(path: string, size: nat, digest: S)

  datatype ManifestDoc<S> = ManifestDoc(files: seq<Entry<S>>, rowCounts: map<string, nat>)

  /** What the source yields: a relative path and an open handle. */
  datatype Item = Item(path: string, handle: Handle)

  function Handles(items: seq<Item>): set<Handle> {
    set i | 0 <= i < |items| :: items[i].handle
  }

  ghost predicate Fresh(items: seq<Item>)
    reads Handles(items)
  {
    && (forall i :: 0 <= i < |items| ==> items[i].handle.pos == 0)
    && (forall i, j :: 0 <= i < j < |items| ==> items[i].handle != items[j].handle)
  }

  function EntryOf<S>(step: (S, bv8) -> S, init: S, item: Item): Entry<S> {
    Entry(item.path, |item.handle.data|, Digest(step, init, item.handle.data))
  }

  /** The manifest of whole files, in order. */
  function EntriesOf<S>(step: (S, bv8) -> S, init: S, items: seq<Item>): (r: seq<Entry<S>>)
    ensures |r| == |items| && forall i :: 0 <= i < |items| ==> r[i] == EntryOf(step, init, items[i])
  {
    seq(|items|, i requires 0 <= i < |items| => EntryOf(step, init, items[i]))
  }

  lemma TakeOne<T>(xs: seq<T>, i: nat)
    requires i < |xs|
    ensures xs[..i + 1] == xs[..i] + [xs[i]]
  {
  }

  function Paths(items: seq<Item>): set<string> {
    set i | 0 <= i < |items| :: items[i].path
  }

  function ZeroCounts(paths: set<string>): map<string, nat> {
    map p | p in paths :: 0
  }

  /** The counts after the first `n` files. */
  function CountsOf(items: seq<Item>, n: nat): map<string, nat>
    requires n <= |items|
  {
    ZeroCounts(Paths(items[..n]))
  }

  function WithCount(counts: map<string, nat>, path: string): map<string, nat> {
    if path in counts then counts else counts[path := 0]
  }

  /** One more file has a count of zero. */
  lemma CountsStep(items: seq<Item>, i: nat)
    requires i < |items|
    ensures CountsOf(items, i + 1) == WithCount(CountsOf(items, i), items[i].path)
  {
    assert items[..i + 1] == items[..i] + [items[i]];
    assert Paths(items[..i + 1]) == Paths(items[..i]) + {items[i].path};
  }

  /** The manifest with one more file. */
  function WithFile<S>(m: ManifestDoc<S>, e: Entry<S>): ManifestDoc<S> {
    ManifestDoc(m.files + [e], WithCount(m.rowCounts, e.path))
  }

  function FirstFiles<S>(step: (S, bv8) -> S, init: S, items: seq<Item>, n: nat): ManifestDoc<S>
    requires n <= |items|
  {
    ManifestDoc(EntriesOf(step, init, items)[..n], CountsOf(items, n))
  }

  /** The manifests of none, one, and so on up to all of the files. */
  lemma Manifests<S>(step: (S, bv8) -> S, init: S, items: seq<Item>) returns (table: seq<ManifestDoc<S>>)
    ensures |table| == |items| + 1 && table[0] == ManifestDoc([], map[])
    ensures table[|items|] == ManifestDoc(EntriesOf(step, init, items), ZeroCounts(Paths(items)))
    ensures forall i :: 0 <= i < |items| ==> table[i + 1] == WithFile(table[i], EntryOf(step, init, items[i]))
  {
    table := seq(|items| + 1, n requires 0 <= n <= |items| => FirstFiles(step, init, items, n));
    forall i | 0 <= i < |items| ensures table[i + 1] == WithFile(table[i], EntryOf(step, init, items[i])) {
      CountsStep(items, i);
      TakeOne(EntriesOf(step, init, items), i);
    }
    assert items[..|items|] == items;
    assert EntriesOf(step, init, items)[..|items|] == EntriesOf(step, init, items);
  }

  /** One file: uploaded, and closed whatever happened. */
  method UploadItem<S>(step: (S, bv8) -> S, init: S, servers: string -> Server, g: StagingGrant, item: Item)
    returns (r: Option<Entry<S>>)
    requires item.handle.pos == 0
    modifies item.handle
    ensures item.handle.closed
    ensures r == if CanUpload(servers, g, item.path, item.handle) then Some(EntryOf(step, init, item)) else None
  {
    var up, body := UploadFile(step, init, servers, g, item.path, item.handle);
    item.handle.Close();
    r := if up.Done? then Some(Entry(item.path, up.written, up.digest)) else None;
  }

  function ClosedOf(items: seq<Item>): (r: seq<bool>)
    reads Handles(items)
    ensures |r| == |items|
  {
    seq(|items|, i requires 0 <= i < |items| reads Handles(items) => items[i].handle.closed)
  }

  /** The first `tried` handles are closed, the others as they were. */
  ghost predicate TriedUpTo(items: seq<Item>, closed: seq<bool>, tried: nat)
    requires |closed| == |items|
    reads Handles(items)
  {
    forall i :: 0 <= i < |items| ==>
      if i < tried then items[i].handle.closed else items[i].handle.closed == closed[i] && items[i].handle.pos == 0
  }

  /** Which files can be uploaded. */
  function Uploadable(servers: string -> Server, g: StagingGrant, items: seq<Item>): (r: seq<bool>)
    ensures |r| == |items| && forall i :: 0 <= i < |items| ==>
              r[i] == CanUpload(servers, g, items[i].path, items[i].handle)
  {
    seq(|items|, i requires 0 <= i < |items| => CanUpload(servers, g, items[i].path, items[i].handle))
  }

  predicate AllUpTo(can: seq<bool>, n: nat)
    requires n <= |can|
  {
    forall i :: 0 <= i < n ==> can[i]
  }

  /** All files are tried, or those up to the first that cannot be uploaded. */
  predicate StopsAt(can: seq<bool>, tried: nat) {
    && tried <= |can|
    && if tried == |can| && AllUpTo(can, tried) then true else tried > 0 && AllUpTo(can, tried - 1) && !can[tried - 1]
  }

  lemma Stopped(can: seq<bool>, tried: nat)
    requires tried < |can| && AllUpTo(can, tried)
    ensures can[tried] ==> AllUpTo(can, tried + 1)
    ensures !can[tried] ==> StopsAt(can, tried + 1) && !AllUpTo(can, |can|)
  {
  }

  /** No two of the files share a handle. */
  ghost predicate Apart(items: seq<Item>) {
    forall i, j :: 0 <= i < j < |items| ==> items[i].handle != items[j].handle
  }

  /** The next file; those before it stay closed, those behind it as they were. */
  method UploadNext<S>(step: (S, bv8) -> S, init: S, servers: string -> Server, g: StagingGrant, items: seq<Item>,
                       ghost closed: seq<bool>, tried: nat)
    returns (r: Option<Entry<S>>)
    requires Apart(items) && tried < |items| == |closed| && TriedUpTo(items, closed, tried)
    modifies items[tried].handle
    ensures TriedUpTo(items, closed, tried + 1)
    ensures r == if Uploadable(servers, g, items)[tried] then Some(EntryOf(step, init, items[tried])) else None
  {
    r := UploadItem(step, init, servers, g, items[tried]);
  }

  /** The loop over the files: an entry for each, up to the first failure. */
  method UploadAll<S>(step: (S, bv8) -> S, init: S, servers: string -> Server, g: StagingGrant, items: seq<Item>)
    returns (m: Option<ManifestDoc<S>>, tried: nat)
    requires Fresh(items)
    modifies Handles(items)
    ensures StopsAt(Uploadable(servers, g, items), tried)
    ensures m == if AllUpTo(Uploadable(servers, g, items), |items|)
                 then Some(ManifestDoc(EntriesOf(step, init, items), ZeroCounts(Paths(items)))) else None
    ensures TriedUpTo(items, old(ClosedOf(items)), tried)
  {
    var sofar: ManifestDoc<S> := ManifestDoc([], map[]);
    ghost var can := Uploadable(servers, g, items);
    ghost var table := Manifests(step, init, items);
    ghost var closed := ClosedOf(items);
    tried := 0;
    while tried < |items|
      invariant tried <= |items| && TriedUpTo(items, closed, tried)
      invariant AllUpTo(can, tried) && sofar == table[tried]
    {
      Stopped(can, tried);
      var entry := UploadNext(step, init, servers, g, items, closed, tried);
      tried := tried + 1;
      if entry.None? {
        return None, tried;
      }
      var counts := sofar.rowCounts;
      if entry.value.path !in counts {
        counts := counts[entry.value.path := 0];
      }
      sofar := ManifestDoc(sofar.files + [entry.value], counts);
    }
    m := Some(sofar);
  }

  /**
   * The source yields `items` and then ends or, if not `complete`, raises. None stands for an exception: then there
   * is no manifest, every handle that was opened for upload is closed, and the files behind the failing one were
   * never touched. There is a manifest exactly when the listing is complete and every file can be uploaded.
   */
  method RunIngestTask<S>(step: (S, bv8) -> S, init: S, servers: string -> Server, g: StagingGrant, items: seq<Item>,
                          complete: bool)
    returns (m: Option<ManifestDoc<S>>, tried: nat)
    requires Fresh(items)
    modifies Handles(items)
    ensures m == if complete && AllUpTo(Uploadable(servers, g, items), |items|)
                 then Some(ManifestDoc(EntriesOf(step, init, items), ZeroCounts(Paths(items)))) else None
    ensures StopsAt(Uploadable(servers, g, items), tried)
    ensures TriedUpTo(items, old(ClosedOf(items)), tried)
  {
    m, tried := UploadAll(step, init, servers, g, items);
    if !complete {
      m := None;
    }
  }
}

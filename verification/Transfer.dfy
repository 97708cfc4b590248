/**
  Moving recordings to the Server: chunked uploads that may be cut off, corrupted or left unacknowledged, one at a time,
  and local deletion by the retention rules.
 */
module Transfer {
  import opened Basics
  import opened FilePaths
  import opened Text

  type Bytes = seq<bv8>

  /** Which file of which pass a recording is. */
  datatype Name = Name(pass: string, relative: string)

  datatype Path = Path(text: string)

  /** SHA-256 over content and over a recording's name. Nothing is assumed of it. */
  datatype Hashes = Hashes(ofContent: Bytes -> Digest, ofName: Name -> Digest)

  datatype Site = Site(root: string, station: string)

  function FileFor(site: Site, name: Name): Option<Path> {
    match RecordingFile(site.root, site.station, name.pass, name.relative)
    case Some(text) => Some(Path(text))
    case None => None
  }

  /** The Worker's row for a recording. */
  datatype Local = Local(name: Name, size: nat, checksum: Digest, uploaded: bool, deleted: bool)

  /** The Server's row for a recording. */
  datatype Remote = Remote(name: Name, path: Path, size: nat, checksum: Digest)

  datatype Server = Server(rows: map<Digest, Remote>, files: map<Path, Bytes>)

  /** `original` remembers what each recording held when it was registered. */
  datatype State = State(local: map<Digest, Local>, disk: map<Digest, Bytes>, server: Server, original: map<Digest, Bytes>)

  // ---- One upload ----

  const MAX_RECORDING_BYTES: nat := 8 * 0x4000_0000

  /** Cut a file into upload-sized pieces; put together again they are the file. */
  method ReadChunks(content: Bytes, size: nat) returns (chunks: seq<Bytes>)
    requires size > 0
    ensures Concat(chunks) == content
    ensures forall k :: 0 <= k < |chunks| ==> 0 < |chunks[k]| <= size
  {
    chunks := [];
    var at := 0;
    while at < |content|
      invariant 0 <= at <= |content|
      invariant Concat(chunks) == content[..at]
      invariant forall k :: 0 <= k < |chunks| ==> 0 < |chunks[k]| <= size
    {
      var end := if at + size <= |content| then at + size else |content|;
      var longer := chunks + [content[at..end]];
      assert longer[..|longer| - 1] == chunks;
      chunks := longer;
      assert content[..at] + content[at..end] == content[..end];
      at := end;
    }
  }

  lemma {:induction false} ConcatPrefix(chunks: seq<Bytes>, n: nat)
    requires n <= |chunks|
    ensures |Concat(chunks[..n])| <= |Concat(chunks)|
    decreases |chunks|
  {
    if n == |chunks| {
      assert chunks[..n] == chunks;
    } else {
      assert chunks[..|chunks| - 1][..n] == chunks[..n];
      ConcatPrefix(chunks[..|chunks| - 1], n);
    }
  }

  /** Write the incoming chunks to a temporary file, giving up once they exceed the limit. */
  method ReceiveContent(chunks: seq<Bytes>) returns (content: Option<Bytes>)
    ensures content == if |Concat(chunks)| > MAX_RECORDING_BYTES then None else Some(Concat(chunks))
  {
    var written: Bytes := [];
    for i := 0 to |chunks|
      invariant written == Concat(chunks[..i]) && |written| <= MAX_RECORDING_BYTES
    {
      assert chunks[..i + 1][..i] == chunks[..i];
      written := written + chunks[i];
      if |written| > MAX_RECORDING_BYTES {
        ConcatPrefix(chunks, i + 1);
        return None;
      }
    }
    assert chunks[..|chunks|] == chunks;
    content := Some(written);
  }

  datatype Metadata = Metadata(id: Digest, name: Name, size: nat, checksum: Digest)

  /** How far the server got before the connection or the process failed. */
  datatype Fate = CutOff | DiedAfterRename | Finished

  /** The server after an upload, and whether it answered that it holds the recording. */
  datatype Received = Received(server: Server, held: bool)

  function Store(h: Hashes, site: Site, server: Server, meta: Metadata, data: Bytes, fate: Fate): Received {
    if meta.id in server.rows then Received(server, true)
    else if FileFor(site, meta.name).None? || fate == CutOff || |data| > MAX_RECORDING_BYTES then Received(server, false)
    else
      var path := FileFor(site, meta.name).value;
      var renamed := server.(files := server.files[path := data]);
      if fate == DiedAfterRename then Received(renamed, false)
      else if h.ofContent(data) != meta.checksum || |data| != meta.size
      then Received(server.(files := server.files - {path}), false)
      else Received(renamed.(rows := server.rows[meta.id := Remote(meta.name, path, |data|, h.ofContent(data))]), true)
  }

  /** The upload handler as it runs: the file is renamed into place before its checksum is compared. */
  class RecordingServer {
    const h: Hashes
    const site: Site
    var rows: map<Digest, Remote>
    var files: map<Path, Bytes>

    constructor (h: Hashes, site: Site)
      ensures this.h == h && this.site == site && View() == Server(map[], map[])
    {
      this.h, this.site, rows, files := h, site, map[], map[];
    }

    function View(): Server
      reads this
    {
      Server(rows, files)
    }

    method UploadRecording(meta: Metadata, chunks: seq<Bytes>, fate: Fate) returns (held: bool)
      modifies this
      ensures Received(View(), held) == Store(h, site, old(View()), meta, Concat(chunks), fate)
    {
      if meta.id in rows {
        return true;
      }
      var destination := RecordingFilePath(site.root, site.station, meta.name.pass, meta.name.relative);
      if destination.None? || fate == CutOff {
        return false;
      }
      var content := ReceiveContent(chunks);
      if content.None? {
        return false;
      }
      var path := Path(destination.value);
      files := files[path := content.value];
      if fate == DiedAfterRename {
        return false;
      }
      if h.ofContent(content.value) != meta.checksum || |content.value| != meta.size {
        files := files - {path};
        assert files == old(files) - {path};
        return false;
      }
      rows := rows[meta.id := Remote(meta.name, path, |content.value|, h.ofContent(content.value))];
      held := true;
    }
  }

  // ---- Runs ----

  datatype Step =
    | Register(name: Name, content: Bytes)
    | Upload(id: Digest, received: Bytes, fate: Fate, acknowledged: bool)
    | Unlink(id: Digest, pressure: bool)      // retention removes the file ...
    | MarkDeleted(id: Digest)                 // ... and, later, notes that it is gone

  const EMPTY := State(map[], map[], Server(map[], map[]), map[])

  function MetadataOf(id: Digest, row: Local): Metadata {
    Metadata(id, row.name, row.size, row.checksum)
  }

  function Uploaded(h: Hashes, site: Site, s: State, id: Digest, data: Bytes, fate: Fate, acknowledged: bool): State
    requires id in s.local
  {
    var result := Store(h, site, s.server, MetadataOf(id, s.local[id]), data, fate);
    var after := s.(server := result.server);
    if result.held && acknowledged then after.(local := s.local[id := s.local[id].(uploaded := true)]) else after
  }

  function Next(h: Hashes, site: Site, s: State, step: Step): State {
    match step
    case Register(name, content) =>
      var id := h.ofName(name);
      if id in s.local || content == [] then s
      else State(s.local[id := Local(name, |content|, h.ofContent(content), false, false)], s.disk[id := content],
                 s.server, s.original[id := content])
    case Upload(id, data, fate, acknowledged) =>
      if id in s.local && !s.local[id].uploaded && !s.local[id].deleted && id in s.disk
      then Uploaded(h, site, s, id, data, fate, acknowledged) else s
    case Unlink(id, pressure) =>
      if id in s.local && !s.local[id].deleted && (s.local[id].uploaded || pressure) then s.(disk := s.disk - {id}) else s
    case MarkDeleted(id) =>
      if id in s.local && id !in s.disk then s.(local := s.local[id := s.local[id].(deleted := true)]) else s
  }

  function Run(h: Hashes, site: Site, steps: seq<Step>): State {
    if steps == [] then EMPTY else Next(h, site, Run(h, site, steps[..|steps| - 1]), steps[|steps| - 1])
  }

  // ---- Integrity and durability ----

  /** The row is filed under its own name, its file is there, and the bytes are those the row describes. */
  ghost predicate RowBacked(h: Hashes, site: Site, server: Server, id: Digest) {
    && id in server.rows
    && h.ofName(server.rows[id].name) == id
    && FileFor(site, server.rows[id].name) == Some(server.rows[id].path)
    && server.rows[id].path in server.files
    && |server.files[server.rows[id].path]| == server.rows[id].size
    && h.ofContent(server.files[server.rows[id].path]) == server.rows[id].checksum
  }

  ghost predicate ServerOk(h: Hashes, site: Site, server: Server) {
    forall id :: id in server.rows ==> RowBacked(h, site, server, id)
  }

  /** What the Worker knows of a recording is true, and agrees with what the Server holds under the same id. */
  ghost predicate LocalOk(h: Hashes, s: State, id: Digest) {
    && id in s.local && h.ofName(s.local[id].name) == id
    && id in s.original && s.local[id].size == |s.original[id]| && s.local[id].checksum == h.ofContent(s.original[id])
    && (id in s.disk ==> s.disk[id] == s.original[id])
    && (s.local[id].uploaded ==> id in s.server.rows)
    && (id in s.server.rows ==> s.server.rows[id].size == s.local[id].size && s.server.rows[id].checksum == s.local[id].checksum)
  }

  ghost predicate Inv(h: Hashes, site: Site, s: State) {
    && ServerOk(h, site, s.server)
    && (forall id :: id in s.local ==> LocalOk(h, s, id))
    && (forall id :: id in s.server.rows ==> id in s.local)
  }

  lemma OneFilePerName(site: Site, a: Name, b: Name)
    requires FileFor(site, a).Some? && FileFor(site, a) == FileFor(site, b)
    ensures a == b
  {
    DistinctFiles(site.root, site.station, a.pass, a.relative, site.station, b.pass, b.relative);
  }

  /** No upload disturbs the file of a recording already held. */
  lemma StoreKeepsRows(h: Hashes, site: Site, server: Server, meta: Metadata, data: Bytes, fate: Fate, id: Digest)
    requires ServerOk(h, site, server) && h.ofName(meta.name) == meta.id
    requires id in server.rows
    ensures RowBacked(h, site, Store(h, site, server, meta, data, fate).server, id)
    ensures Store(h, site, server, meta, data, fate).server.rows[id] == server.rows[id]
  {
    assert RowBacked(h, site, server, id);
    if meta.id !in server.rows && FileFor(site, meta.name).Some? {
      var path := FileFor(site, meta.name).value;
      PathDiffers(h, site, server, meta, id);
      StoreTouches(h, site, server, meta, data, fate, path);
      OtherFileKept(h, site, server, Store(h, site, server, meta, data, fate).server, id, path);
    }
  }

  /** A recording not yet held goes to a file of its own. */
  lemma PathDiffers(h: Hashes, site: Site, server: Server, meta: Metadata, id: Digest)
    requires RowBacked(h, site, server, id) && h.ofName(meta.name) == meta.id && meta.id != id
    ensures FileFor(site, meta.name) != Some(server.rows[id].path)
  {
    if FileFor(site, meta.name) == Some(server.rows[id].path) {
      OneFilePerName(site, meta.name, server.rows[id].name);
    }
  }

  /** An upload touches one file and one row. */
  lemma StoreTouches(h: Hashes, site: Site, server: Server, meta: Metadata, data: Bytes, fate: Fate, path: Path)
    requires FileFor(site, meta.name) == Some(path)
    ensures var after := Store(h, site, server, meta, data, fate).server;
            && (forall q :: q in server.files && q != path ==> q in after.files && after.files[q] == server.files[q])
            && (forall id :: id in server.rows ==> id in after.rows && after.rows[id] == server.rows[id])
  {
  }

  lemma OtherFileKept(h: Hashes, site: Site, server: Server, after: Server, id: Digest, path: Path)
    requires RowBacked(h, site, server, id) && server.rows[id].path != path
    requires id in after.rows && after.rows[id] == server.rows[id]
    requires forall q :: q in server.files && q != path ==> q in after.files && after.files[q] == server.files[q]
    ensures RowBacked(h, site, after, id)
  {
  }

  /** A recording is newly held exactly when its path is accepted, the upload was not cut off, and what arrived is within
      the limit and has the announced size and checksum; then its row names it and its file is exactly what arrived.
      Otherwise no row changes. */
  lemma HeldExactlyWhenSound(h: Hashes, site: Site, server: Server, meta: Metadata, data: Bytes, fate: Fate)
    requires meta.id !in server.rows
    ensures var r := Store(h, site, server, meta, data, fate);
            && (r.held <==>
                  && RecordingFile(site.root, site.station, meta.name.pass, meta.name.relative).Some?
                  && fate == Finished && |data| <= 8 * 1024 * 1024 * 1024
                  && |data| == meta.size && h.ofContent(data) == meta.checksum)
            && (r.held ==>
                  && meta.id in r.server.rows
                  && var row := r.server.rows[meta.id];
                     && row.name == meta.name && row.size == |data| && row.checksum == h.ofContent(data)
                     && RecordingFile(site.root, site.station, meta.name.pass, meta.name.relative) == Some(row.path.text)
                     && row.path in r.server.files && r.server.files[row.path] == data)
            && (!r.held ==> r.server.rows == server.rows)
  {
  }

  /** Registering records the size and digest of what is on disk, once, and never an empty file. */
  lemma RegisteredExactly(h: Hashes, site: Site, s: State, name: Name, content: Bytes)
    ensures var after := Next(h, site, s, Register(name, content));
            var id := h.ofName(name);
            if id in s.local || |content| == 0 then after == s
            else
              && after.local == s.local[id := Local(name, |content|, h.ofContent(content), false, false)]
              && after.disk == s.disk[id := content] && after.original == s.original[id := content]
              && after.server == s.server
  {
  }

  /** Retention removes a confirmed recording, or any under pressure; a removed one is then noted as deleted. */
  lemma RemovedExactly(h: Hashes, site: Site, s: State, id: Digest, pressure: bool)
    requires id in s.local && id in s.disk && !s.local[id].deleted
    ensures var after := Next(h, site, s, Unlink(id, pressure));
            && (id !in after.disk <==> s.local[id].uploaded || pressure)
            && after.local == s.local && after.server == s.server
            && (id !in after.disk ==> Next(h, site, after, MarkDeleted(id)).local == s.local[id := s.local[id].(deleted := true)])
            && (forall x :: x in s.disk && x != id ==> x in after.disk && after.disk[x] == s.disk[x])
  {
  }

  /** Main result, after any run: uploading what is on disk, without interruption and with the answer received, flags the
      recording and puts exactly the original on the Server, or finds it held there already. */
  lemma HonestUploadArrives(h: Hashes, site: Site, steps: seq<Step>, id: Digest)
    requires var s := Run(h, site, steps);
             && id in s.local && !s.local[id].uploaded && !s.local[id].deleted && id in s.disk
             && RecordingFile(site.root, site.station, s.local[id].name.pass, s.local[id].name.relative).Some?
             && |s.disk[id]| <= MAX_RECORDING_BYTES
    ensures var s := Run(h, site, steps);
            var after := Next(h, site, s, Upload(id, s.disk[id], Finished, true));
            && id in after.local && after.local[id].uploaded
            && id in after.server.rows && after.server.rows[id].path in after.server.files
            && id in s.original
            && (id !in s.server.rows ==> after.server.files[after.server.rows[id].path] == s.original[id])
  {
    var s := Run(h, site, steps);
    RunKeeps(h, site, steps);
    assert LocalOk(h, s, id);
    if id in s.server.rows {
      assert RowBacked(h, site, s.server, id);
    } else {
      HeldExactlyWhenSound(h, site, s.server, MetadataOf(id, s.local[id]), s.disk[id], Finished);
    }
  }

  lemma StoreKeepsServer(h: Hashes, site: Site, server: Server, meta: Metadata, data: Bytes, fate: Fate)
    requires ServerOk(h, site, server) && h.ofName(meta.name) == meta.id
    ensures var r := Store(h, site, server, meta, data, fate);
            && ServerOk(h, site, r.server)
            && (r.held <==> meta.id in r.server.rows)
            && (forall id :: id in server.rows ==> id in r.server.rows && r.server.rows[id] == server.rows[id])
            && (forall id :: id in r.server.rows && id !in server.rows ==>
                  id == meta.id && r.server.rows[id].size == meta.size && r.server.rows[id].checksum == meta.checksum)
  {
    var r := Store(h, site, server, meta, data, fate);
    forall id | id in server.rows ensures RowBacked(h, site, r.server, id) && r.server.rows[id] == server.rows[id] {
      StoreKeepsRows(h, site, server, meta, data, fate, id);
    }
  }

  lemma StepKeeps(h: Hashes, site: Site, s: State, step: Step)
    requires Inv(h, site, s)
    ensures Inv(h, site, Next(h, site, s, step))
  {
    if step.Upload? && step.id in s.local {
      UploadKeeps(h, site, s, step.id, step.received, step.fate, step.acknowledged);
    }
  }

  lemma UploadKeeps(h: Hashes, site: Site, s: State, id: Digest, data: Bytes, fate: Fate, acknowledged: bool)
    requires Inv(h, site, s) && id in s.local
    ensures Inv(h, site, Uploaded(h, site, s, id, data, fate, acknowledged))
  {
    var meta := MetadataOf(id, s.local[id]);
    var after := Uploaded(h, site, s, id, data, fate, acknowledged);
    StoreKeepsServer(h, site, s.server, meta, data, fate);
    forall x | x in after.local ensures LocalOk(h, after, x) { assert LocalOk(h, s, x); }
  }

  lemma {:induction false} RunKeeps(h: Hashes, site: Site, steps: seq<Step>)
    ensures Inv(h, site, Run(h, site, steps))
  {
    if steps != [] {
      RunKeeps(h, site, steps[..|steps| - 1]);
      StepKeeps(h, site, Run(h, site, steps[..|steps| - 1]), steps[|steps| - 1]);
    }
  }

  /** Main result: every row the Server holds points to a file of exactly the recorded size and checksum. */
  lemma EveryRowIsBacked(h: Hashes, site: Site, steps: seq<Step>, id: Digest)
    requires id in Run(h, site, steps).server.rows
    ensures RowBacked(h, site, Run(h, site, steps).server, id)
  {
    RunKeeps(h, site, steps);
  }

  /** Deleting, under disk pressure, the only copy of a recording. */
  ghost predicate Sacrifices(s: State, step: Step, id: Digest) {
    step == Unlink(id, true) && id in s.local && !s.local[id].deleted && id in s.disk && id !in s.server.rows
  }

  ghost predicate EverSacrificed(h: Hashes, site: Site, steps: seq<Step>, id: Digest) {
    && steps != []
    && (EverSacrificed(h, site, steps[..|steps| - 1], id) || Sacrifices(Run(h, site, steps[..|steps| - 1]), steps[|steps| - 1], id))
  }

  ghost predicate OnNeitherSide(s: State, id: Digest) {
    id !in s.disk && id !in s.server.rows
  }

  lemma StepLoses(h: Hashes, site: Site, s: State, step: Step, id: Digest)
    requires Inv(h, site, s) && id in s.local
    ensures id in Next(h, site, s, step).local
    ensures OnNeitherSide(Next(h, site, s, step), id) <==> OnNeitherSide(s, id) || Sacrifices(s, step, id)
  {
    if step.Upload? && step.id in s.local {
      StoreKeepsServer(h, site, s.server, MetadataOf(step.id, s.local[step.id]), step.received, step.fate);
    }
  }

  /**
    Main result: a registered recording is on neither side exactly when its only copy was deleted under disk pressure.
    On the Worker's side it is the original; on the Server's side it has the original's size and digest, and is the
    original unless the two collide under SHA-256. A recording flagged as uploaded is always on the Server's side.
   */
  lemma {:induction false} LostExactlyWhenSacrificed(h: Hashes, site: Site, steps: seq<Step>, id: Digest)
    requires id in Run(h, site, steps).local
    ensures var s := Run(h, site, steps);
            && (OnNeitherSide(s, id) <==> EverSacrificed(h, site, steps, id))
            && id in s.original
            && (id in s.disk ==> s.disk[id] == s.original[id])
            && (s.local[id].uploaded ==> id in s.server.rows)
            && (id in s.server.rows ==>
                  && s.server.rows[id].path in s.server.files
                  && var copy := s.server.files[s.server.rows[id].path];
                     |copy| == |s.original[id]| && h.ofContent(copy) == h.ofContent(s.original[id]))
  {
    var init, last := steps[..|steps| - 1], steps[|steps| - 1];
    RunKeeps(h, site, steps);
    RunKeeps(h, site, init);
    if id in Run(h, site, init).local {
      LostExactlyWhenSacrificed(h, site, init, id);
      StepLoses(h, site, Run(h, site, init), last, id);
    } else {
      NeverSacrificedBefore(h, site, init, id);
    }
    var s := Run(h, site, steps);
    if id in s.server.rows { assert RowBacked(h, site, s.server, id); }
  }

  lemma {:induction false} NeverSacrificedBefore(h: Hashes, site: Site, steps: seq<Step>, id: Digest)
    requires id !in Run(h, site, steps).local
    ensures !EverSacrificed(h, site, steps, id)
  {
    if steps != [] {
      NeverSacrificedBefore(h, site, steps[..|steps| - 1], id);
    }
  }
}

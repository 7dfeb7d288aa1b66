/** `StorageService`: the blob store. Writing, ranged reading and concatenation go through streams
    of arbitrary chunking; what they amount to is stated on whole payloads. */
module Storage {
  import opened Common
  import opened Cipher

  type Path = nat

  datatype Error = PayloadTooLarge | SourceBroken | BlobNotFound | EncryptionKey

  /** Byte offsets into the plaintext, inclusive on both ends. */
  datatype Range = Range(start: nat, end: nat)

  /** A stored blob's way to be read: its wrapped data key, or None when it is in the clear. */
  type Encryption = Option<string>

  /** What a client's stream delivers, in chunks, until it ends or breaks off. */
  datatype Source = Source(chunks: seq<seq<byte>>, broken: bool)

  datatype WriteResult = WriteResult(path: Path, size: nat, etag: string, encryption: Encryption)

  datatype ReadResult = ReadResult(bytes: seq<byte>, size: int)

  datatype ConcatSource = ConcatSource(path: Path, encryption: Encryption)

  /** A fresh data key and its wrapped form. */
  datatype NewKey = NewKey(blobKey: BlobKey, wrapped: string)

  function OpenKey(suite: Suite, wrapped: string): Result<BlobKey, Error>
  {
    match suite.unwrap(wrapped)
    case None => Err(EncryptionKey)
    case Some(material) =>
      if |material| != KEY_BYTES + IV_BYTES then Err(EncryptionKey)
      else Ok(BlobKey(material[..KEY_BYTES], material[KEY_BYTES..]))
  }

  // ---- Whole payloads ----

  /** The payload a blob holds. */
  function Load(suite: Suite, blob: seq<byte>, encryption: Encryption): Result<seq<byte>, Error>
  {
    match encryption
    case None => Ok(blob)
    case Some(wrapped) =>
      match OpenKey(suite, wrapped)
      case Err(e) => Err(e)
      case Ok(k) => Ok(Ctr(suite, k, 0, blob))
  }

  /** The blob a payload is stored as. */
  function Store(suite: Suite, payload: seq<byte>, newKey: Option<NewKey>): seq<byte>
  {
    match newKey case None => payload case Some(k) => Ctr(suite, k.blobKey, 0, payload)
  }

  /** What the sink receives for a chunk standing at a position of the payload. */
  function Staged(suite: Suite, newKey: Option<NewKey>, position: nat, chunk: seq<byte>): seq<byte>
  {
    match newKey case None => chunk case Some(k) => Ctr(suite, k.blobKey, position, chunk)
  }

  lemma StoreConcat(suite: Suite, payload: seq<byte>, chunk: seq<byte>, newKey: Option<NewKey>)
    ensures Store(suite, payload + chunk, newKey) == Store(suite, payload, newKey) + Staged(suite, newKey, |payload|, chunk)
    ensures Store(suite, [], newKey) == []
  {
    if newKey.Some? {
      CtrConcat(suite, newKey.value.blobKey, 0, payload, chunk);
    }
  }

  function Descriptor(newKey: Option<NewKey>): Encryption
  {
    match newKey case None => None case Some(k) => Some(k.wrapped)
  }

  /** Wrapping and unwrapping a data key are inverse. */
  ghost predicate Wraps(suite: Suite, newKey: Option<NewKey>)
  {
    newKey.Some? ==> OpenKey(suite, newKey.value.wrapped) == Ok(newKey.value.blobKey)
  }

  lemma LoadStore(suite: Suite, payload: seq<byte>, newKey: Option<NewKey>)
    requires Wraps(suite, newKey)
    ensures Load(suite, Store(suite, payload, newKey), Descriptor(newKey)) == Ok(payload)
  {
    if newKey.Some? {
      CtrTwice(suite, newKey.value.blobKey, 0, payload);
    }
  }

  function LoadAll(suite: Suite, blobs: map<Path, seq<byte>>, sources: seq<ConcatSource>): Result<seq<byte>, Error>
  {
    if sources == [] then Ok([])
    else if sources[0].path !in blobs then Err(BlobNotFound)
    else match Load(suite, blobs[sources[0].path], sources[0].encryption)
      case Err(e) => Err(e)
      case Ok(first) =>
        match LoadAll(suite, blobs, sources[1..])
        case Err(e) => Err(e)
        case Ok(rest) => Ok(first + rest)
  }

  /** Loading everything is loading `done` and then the rest. */
  ghost predicate Loaded(all: Result<seq<byte>, Error>, done: seq<byte>, rest: Result<seq<byte>, Error>)
  {
    all == if rest.Ok? then Ok(done + rest.value) else rest
  }

  lemma LoadedNothing(all: Result<seq<byte>, Error>)
    ensures Loaded(all, [], all)
  {
    if all.Ok? {
      assert [] + all.value == all.value;
    }
  }

  lemma LoadStep(suite: Suite, blobs: map<Path, seq<byte>>, sources: seq<ConcatSource>, all: Result<seq<byte>, Error>, done: seq<byte>)
    requires sources != [] && Loaded(all, done, LoadAll(suite, blobs, sources))
    ensures sources[0].path !in blobs ==> all == Err(BlobNotFound)
    ensures sources[0].path in blobs ==>
              match Load(suite, blobs[sources[0].path], sources[0].encryption)
              case Err(e) => all == Err(e)
              case Ok(part) => Loaded(all, done + part, LoadAll(suite, blobs, sources[1..]))
  {
    hide Load;
    var rest := LoadAll(suite, blobs, sources[1..]);
    if sources[0].path in blobs && Load(suite, blobs[sources[0].path], sources[0].encryption).Ok? && rest.Ok? {
      var part := Load(suite, blobs[sources[0].path], sources[0].encryption).value;
      assert done + (part + rest.value) == done + part + rest.value;
    }
  }

  lemma LoadedAll(suite: Suite, blobs: map<Path, seq<byte>>, sources: seq<ConcatSource>, all: Result<seq<byte>, Error>, done: seq<byte>)
    requires sources == [] && Loaded(all, done, LoadAll(suite, blobs, sources))
    ensures all == Ok(done)
  {
    assert done + [] == done;
  }

  /** The part of a payload a range covers; a range past the end covers less than it asks for. */
  function Slice(payload: seq<byte>, start: nat, end: nat): seq<byte>
  {
    payload[Min(start, |payload|)..Max(Min(start, |payload|), Min(end + 1, |payload|))]
  }

  /** How the runtime cuts a file's bytes into chunks: anyhow, but completely. */
  ghost predicate Chunks(chunking: seq<byte> -> seq<seq<byte>>)
  {
    forall bytes :: Flatten(chunking(bytes)) == bytes
  }

  /** Decrypting from an earlier position and dropping the surplus is slicing the full decryption. */
  lemma RangeBytes(suite: Suite, k: BlobKey, file: seq<byte>, aligned: nat, start: nat, end: nat)
    requires aligned <= start <= end
    ensures var source := Slice(file, aligned, end);
            Ctr(suite, k, aligned, source)[Min(start - aligned, |source|)..] == Slice(Ctr(suite, k, 0, file), start, end)
  {
    if aligned < |file| {
      CtrSlice(suite, k, file, aligned, Min(end + 1, |file|));
    }
  }

  predicate TooLarge(source: Source, maxBytes: Option<nat>) { maxBytes.Some? && |Flatten(source.chunks)| > maxBytes.value }

  class StorageService {
    const suite: Suite
    /** The data key drawn for the blob at a path; None while encryption is switched off. */
    const createKey: Path -> Option<NewKey>
    const chunking: seq<byte> -> seq<seq<byte>>
    var blobs: map<Path, seq<byte>>
    /** Storage paths are random and never drawn twice. */
    var nextPath: Path

    ghost predicate Valid()
      reads this
    {
      && Chunks(chunking)
      && (forall path :: Wraps(suite, createKey(path)))
      && (forall path :: path in blobs ==> path < nextPath)
    }

    constructor (suite: Suite, createKey: Path -> Option<NewKey>, chunking: seq<byte> -> seq<seq<byte>>)
      requires Chunks(chunking) && forall path :: Wraps(suite, createKey(path))
      ensures Valid() && blobs == map[]
    {
      this.suite, this.createKey, this.chunking := suite, createKey, chunking;
      blobs, nextPath := map[], 0;
    }

    /** Streams a payload to a fresh path; its size ceiling is enforced on what actually arrives. A
        stream that grows too large or breaks off leaves no blob. */
    method Write(source: Source, maxBytes: Option<nat>) returns (r: Result<WriteResult, Error>)
      requires Valid()
      modifies this
      ensures Valid() && nextPath == old(nextPath) + 1
      ensures r.Err? <==> TooLarge(source, maxBytes) || source.broken
      ensures r.Err? ==> r.error == (if TooLarge(source, maxBytes) then PayloadTooLarge else SourceBroken) && blobs == old(blobs)
      ensures r.Ok? ==>
                && r.value == WriteResult(old(nextPath), |Flatten(source.chunks)|, suite.md5(Flatten(source.chunks)), Descriptor(createKey(old(nextPath))))
                && blobs == old(blobs)[old(nextPath) := Store(suite, Flatten(source.chunks), createKey(old(nextPath)))]
                && Load(suite, blobs[old(nextPath)], r.value.encryption) == Ok(Flatten(source.chunks))
    {
      var path := nextPath;
      nextPath := nextPath + 1;
      r := Stream(source.chunks, maxBytes, createKey(path), path);
      if r.Ok? && source.broken {
        blobs := blobs - {path};
        assert blobs == old(blobs);
        return Err(SourceBroken);
      }
    }

    /** The pipeline behind `Write`, from the source through the cipher stage into the file. */
    method Stream(source: seq<seq<byte>>, maxBytes: Option<nat>, newKey: Option<NewKey>, path: Path) returns (r: Result<WriteResult, Error>)
      requires path !in blobs && Wraps(suite, newKey)
      modifies this`blobs
      ensures r.Err? <==> maxBytes.Some? && |Flatten(source)| > maxBytes.value
      ensures r.Err? ==> r.error == PayloadTooLarge && blobs == old(blobs)
      ensures r.Ok? ==>
                && r.value == WriteResult(path, |Flatten(source)|, suite.md5(Flatten(source)), Descriptor(newKey))
                && blobs == old(blobs)[path := Store(suite, Flatten(source), newKey)]
                && Load(suite, blobs[path], r.value.encryption) == Ok(Flatten(source))
    {
      hide Ctr, OpenKey, Store, Load;
      var stage: CtrStage? := null;
      if newKey.Some? {
        stage := new CtrStage(suite, newKey.value.blobKey);
      }
      var hashed: seq<byte> := [];
      var size := 0;
      blobs := blobs[path := []];
      StoreConcat(suite, [], [], newKey);
      assert Flatten(source) == [] + Flatten(source[0..]);
      for i := 0 to |source|
        invariant stage == null <==> newKey.None?
        invariant stage != null ==> fresh(stage) && stage.suite == suite && stage.blobKey == newKey.value.blobKey && stage.position == size
        invariant size == |hashed| && hashed + Flatten(source[i..]) == Flatten(source)
        invariant maxBytes.Some? ==> size <= maxBytes.value
        invariant blobs == old(blobs)[path := Store(suite, hashed, newKey)]
      {
        var chunk := source[i];
        assert source[i..][0] == chunk && source[i..][1..] == source[i + 1..];
        StoreConcat(suite, hashed, chunk, newKey);
        hashed := hashed + chunk;
        size := size + |chunk|;
        if maxBytes.Some? && size > maxBytes.value {
          blobs := blobs - {path};
          assert blobs == old(blobs);
          return Err(PayloadTooLarge);
        }
        var out := chunk;
        if stage != null {
          out := stage.Transform(chunk);
        }
        blobs := blobs[path := blobs[path] + out];
      }
      assert Flatten(source[|source|..]) == [] && hashed == Flatten(source);
      LoadStore(suite, hashed, newKey);
      r := Ok(WriteResult(path, size, suite.md5(hashed), Descriptor(newKey)));
    }

    /** Opens a payload or a range of it. Whatever the chunking and the range's alignment, the bytes
        are those of the plaintext, and for a range inside the payload as many as announced. */
    method Read(path: Path, range: Option<Range>, encryption: Encryption) returns (r: Result<ReadResult, Error>)
      requires Chunks(chunking)
      requires range.Some? ==> range.value.start <= range.value.end
      ensures path !in blobs ==> r == Err(BlobNotFound)
      ensures path in blobs && Load(suite, blobs[path], encryption).Err? ==> r == Err(Load(suite, blobs[path], encryption).error)
      ensures path in blobs && Load(suite, blobs[path], encryption).Ok? ==>
                var payload := Load(suite, blobs[path], encryption).value;
                && r.Ok?
                && (range.None? ==> r.value == ReadResult(payload, |payload|))
                && (range.Some? ==> r.value.bytes == Slice(payload, range.value.start, range.value.end))
                && (range.Some? ==> r.value.size == range.value.end - range.value.start + 1)
                && (range.Some? && range.value.end < |payload| ==>
                      r.value.bytes == payload[range.value.start..range.value.end + 1] && |r.value.bytes| == r.value.size)
    {
      hide Ctr, OpenKey;
      if path !in blobs {
        return Err(BlobNotFound);
      }
      var file := blobs[path];
      var size := if range.Some? then range.value.end - range.value.start + 1 else |file|;
      var start := if range.Some? then range.value.start else 0;
      if encryption.None? {
        var pieces := chunking(if range.Some? then Slice(file, start, range.value.end) else file);
        var bytes := Collect(pieces);
        return Ok(ReadResult(bytes, size));
      }
      var unwrapped := OpenKey(suite, encryption.value);
      if unwrapped.Err? {
        return Err(unwrapped.error);
      }
      var decipher, skip, aligned := DecryptStages(suite, unwrapped.value, start);
      var source := if range.Some? then Slice(file, aligned, range.value.end) else file;
      var bytes := Pipe(chunking(source), decipher, skip);
      if range.Some? {
        RangeBytes(suite, unwrapped.value, file, aligned, start, range.value.end);
      } else {
        assert bytes == Ctr(suite, unwrapped.value, 0, file)[0..];
      }
      r := Ok(ReadResult(bytes, size));
    }

    /** Reads parts one after the other - each with its own key - into one fresh blob under one
        keystream. A missing or unreadable part leaves no blob behind. */
    method Concat(sources: seq<ConcatSource>) returns (r: Result<WriteResult, Error>)
      requires Valid()
      requires forall source :: source in sources ==> source.path < nextPath
      modifies this
      ensures Valid() && nextPath == old(nextPath) + 1
      ensures LoadAll(suite, old(blobs), sources).Err? ==> r == Err(LoadAll(suite, old(blobs), sources).error) && blobs == old(blobs)
      ensures LoadAll(suite, old(blobs), sources).Ok? ==>
                var payload := LoadAll(suite, old(blobs), sources).value;
                && r == Ok(WriteResult(old(nextPath), |payload|, suite.md5(payload), Descriptor(createKey(old(nextPath)))))
                && blobs == old(blobs)[old(nextPath) := Store(suite, payload, createKey(old(nextPath)))]
                && Load(suite, blobs[old(nextPath)], r.value.encryption) == Ok(payload)
    {
      var target := nextPath;
      nextPath := nextPath + 1;
      r := StreamAll(sources, createKey(target), target);
    }

    method StreamAll(sources: seq<ConcatSource>, newKey: Option<NewKey>, target: Path) returns (r: Result<WriteResult, Error>)
      requires target !in blobs && Wraps(suite, newKey) && Chunks(chunking)
      requires forall source :: source in sources ==> source.path != target
      modifies this`blobs
      ensures LoadAll(suite, old(blobs), sources).Err? ==> r == Err(LoadAll(suite, old(blobs), sources).error) && blobs == old(blobs)
      ensures LoadAll(suite, old(blobs), sources).Ok? ==>
                var payload := LoadAll(suite, old(blobs), sources).value;
                && r == Ok(WriteResult(target, |payload|, suite.md5(payload), Descriptor(newKey)))
                && blobs == old(blobs)[target := Store(suite, payload, newKey)]
                && Load(suite, blobs[target], r.value.encryption) == Ok(payload)
    {
      hide Ctr, OpenKey, Store, Load;
      var stage: CtrStage? := null;
      if newKey.Some? {
        stage := new CtrStage(suite, newKey.value.blobKey);
      }
      var hashed: seq<byte> := [];
      ghost var all := LoadAll(suite, blobs, sources);
      hide LoadAll, Loaded;
      blobs := blobs[target := []];
      StoreConcat(suite, [], [], newKey);
      assert sources[0..] == sources;
      LoadedNothing(all);
      for i := 0 to |sources|
        invariant stage == null <==> newKey.None?
        invariant stage != null ==> fresh(stage) && stage.suite == suite && stage.blobKey == newKey.value.blobKey && stage.position == |hashed|
        invariant blobs == old(blobs)[target := Store(suite, hashed, newKey)]
        invariant Loaded(all, hashed, LoadAll(suite, old(blobs), sources[i..]))
      {
        var source := sources[i];
        assert sources[i..][0] == source && sources[i..][1..] == sources[i + 1..];
        LoadStep(suite, old(blobs), sources[i..], all, hashed);
        var plain := Read(source.path, None, source.encryption);
        if plain.Err? {
          blobs := blobs - {target};
          assert blobs == old(blobs);
          return Err(plain.error);
        }
        hashed := Append(stage, chunking(plain.value.bytes), newKey, target, hashed);
      }
      LoadedAll(suite, old(blobs), sources[|sources|..], all, hashed);
      LoadStore(suite, hashed, newKey);
      r := Ok(WriteResult(target, |hashed|, suite.md5(hashed), Descriptor(newKey)));
    }

    /** Pipes one plaintext into the open sink, through its cipher stage if it has one. */
    method Append(stage: CtrStage?, pieces: seq<seq<byte>>, newKey: Option<NewKey>, target: Path, before: seq<byte>) returns (hashed: seq<byte>)
      requires stage == null <==> newKey.None?
      requires stage != null ==> stage.suite == suite && stage.blobKey == newKey.value.blobKey && stage.position == |before|
      requires target in blobs && blobs[target] == Store(suite, before, newKey)
      modifies this`blobs, stage
      ensures hashed == before + Flatten(pieces)
      ensures stage != null ==> stage.position == |hashed|
      ensures blobs == old(blobs)[target := Store(suite, hashed, newKey)]
    {
      hide Ctr, Store;
      hashed := before;
      assert pieces[0..] == pieces;
      for j := 0 to |pieces|
        invariant stage != null ==> stage.position == |hashed|
        invariant blobs == old(blobs)[target := Store(suite, hashed, newKey)]
        invariant hashed + Flatten(pieces[j..]) == before + Flatten(pieces)
      {
        var chunk := pieces[j];
        assert pieces[j..][0] == chunk && pieces[j..][1..] == pieces[j + 1..];
        StoreConcat(suite, hashed, chunk, newKey);
        hashed := hashed + chunk;
        var out := chunk;
        if stage != null {
          out := stage.Transform(chunk);
        }
        blobs := blobs[target := blobs[target] + out];
      }
      assert pieces[|pieces|..] == [];
    }

    method Delete(path: Path)
      requires Valid()
      modifies this`blobs
      ensures Valid() && blobs == old(blobs) - {path}
    {
      blobs := blobs - {path};
    }
  }

  /** A consumer gathering the chunks of a stream. */
  method Collect(pieces: seq<seq<byte>>) returns (bytes: seq<byte>)
    ensures bytes == Flatten(pieces)
  {
    bytes := [];
    assert pieces[0..] == pieces;
    for i := 0 to |pieces|
      invariant bytes + Flatten(pieces[i..]) == Flatten(pieces)
    {
      assert pieces[i..][0] == pieces[i] && pieces[i..][1..] == pieces[i + 1..];
      bytes := bytes + pieces[i];
    }
    assert pieces[|pieces|..] == [];
  }

  lemma DropConcat<T>(a: seq<T>, b: seq<T>, drop: nat)
    ensures (a + b)[Min(drop, |a + b|)..] == a[Min(drop, |a|)..] + b[Min(drop - Min(drop, |a|), |b|)..]
  {}

  /** The chunks piped through the decipher stage and, if there is one, the skip stage. */
  method Pipe(pieces: seq<seq<byte>>, decipher: CtrStage, skip: SkipStage?) returns (bytes: seq<byte>)
    requires decipher.position == 0
    modifies decipher, skip
    ensures var plain := Ctr(decipher.suite, decipher.blobKey, 0, Flatten(pieces));
            var drop := if skip == null then 0 else old(skip.remaining);
            bytes == plain[Min(drop, |plain|)..]
  {
    hide Ctr;
    bytes := [];
    ghost var seen: seq<byte> := [];
    ghost var drop := if skip == null then 0 else skip.remaining;
    assert pieces[0..] == pieces;
    for i := 0 to |pieces|
      invariant seen + Flatten(pieces[i..]) == Flatten(pieces)
      invariant decipher.position == |seen|
      invariant skip != null ==> skip.remaining == drop - Min(drop, |seen|)
      invariant bytes == Ctr(decipher.suite, decipher.blobKey, 0, seen)[Min(drop, |seen|)..]
    {
      assert pieces[i..][0] == pieces[i] && pieces[i..][1..] == pieces[i + 1..];
      CtrConcat(decipher.suite, decipher.blobKey, 0, seen, pieces[i]);
      var chunk := decipher.Transform(pieces[i]);
      DropConcat(Ctr(decipher.suite, decipher.blobKey, 0, seen), chunk, drop);
      if skip != null {
        chunk := skip.Transform(chunk);
      }
      bytes := bytes + chunk;
      seen := seen + pieces[i];
    }
    assert pieces[|pieces|..] == [] && seen == Flatten(pieces);
  }
}

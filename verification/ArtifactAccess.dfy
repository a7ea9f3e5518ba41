/** How an artifact is named, read in chunks, and described on disk. */
module ArtifactAccess {
  import opened Common

  // -------------------------------------------------------------------------
  // Decimal numbers
  // -------------------------------------------------------------------------

  predicate IsDigit(c: char) {
    '0' <= c <= '9'
  }

  function DigitValue(c: char): nat
    requires IsDigit(c)
  {
    (c - '0') as nat
  }

  function DigitChar(d: nat): (c: char)
    requires d < 10
    ensures IsDigit(c) && DigitValue(c) == d
  {
    '0' + d as char
  }

  function Decimal(n: nat): string {
    if n < 10 then [DigitChar(n)] else Decimal(n / 10) + [DigitChar(n % 10)]
  }

  function DigitsValue(s: string): nat
    requires forall i :: 0 <= i < |s| ==> IsDigit(s[i])
  {
    if s == [] then 0 else DigitsValue(s[..|s| - 1]) * 10 + DigitValue(s[|s| - 1])
  }

  // A 64-bit unsigned number as Rust reads one: digits, with a plus sign allowed in front.
  function ParseUnsigned(s: string): Option<nat> {
    var digits := if s != [] && s[0] == '+' then s[1..] else s;
    if digits == [] || exists i :: 0 <= i < |digits| && !IsDigit(digits[i]) then None
    else if DigitsValue(digits) > U64_MAX then None
    else Some(DigitsValue(digits))
  }

  lemma {:induction false} DecimalReadsBack(n: nat)
    ensures Decimal(n) != [] && forall i :: 0 <= i < |Decimal(n)| ==> IsDigit(Decimal(n)[i])
    ensures DigitsValue(Decimal(n)) == n
  {
    if n >= 10 {
      DecimalReadsBack(n / 10);
      var s := Decimal(n);
      assert s[..|s| - 1] == Decimal(n / 10);
    } else {
      assert Decimal(n)[..0] == [];
    }
  }

  lemma PrintedNumberParses(n: nat)
    ensures ParseUnsigned(Decimal(n)) == if n <= U64_MAX then Some(n) else None
  {
    DecimalReadsBack(n);
    assert IsDigit(Decimal(n)[0]);
  }

  // -------------------------------------------------------------------------
  // URIs
  // -------------------------------------------------------------------------

  const SCHEME := "plug://artifact/"
  const MANIFEST_SUFFIX := "/manifest"
  const CHUNK_PREFIX := "/chunk/"

  datatype Request = Manifest(id: string) | Chunk(id: string, index: nat)

  function ManifestUri(id: string): string {
    SCHEME + id + MANIFEST_SUFFIX
  }

  function ChunkUri(id: string, index: nat): string {
    SCHEME + id + CHUNK_PREFIX + Decimal(index)
  }

  predicate SlashFree(s: string) {
    '/' !in s
  }

  // The parts before and after the first slash.
  function SplitOnce(s: string): Option<(string, string)> {
    if s == [] then None
    else if s[0] == '/' then Some(([], s[1..]))
    else match SplitOnce(s[1..])
         case None => None
         case Some((a, b)) => Some(([s[0]] + a, b))
  }

  function StripPrefix(s: string, prefix: string): Option<string> {
    if prefix <= s then Some(s[|prefix|..]) else None
  }

  function ParseUri(uri: string): Option<Request> {
    match StripPrefix(uri, SCHEME)
    case None => None
    case Some(rest) =>
      match SplitOnce(rest)
      case None => None
      case Some((id, suffix)) =>
        if suffix == "manifest" then Some(Manifest(id))
        else match StripPrefix(suffix, "chunk/")
             case None => None
             case Some(digits) =>
               match ParseUnsigned(digits)
               case None => None
               case Some(index) => Some(Chunk(id, index))
  }

  lemma {:induction false} SplitOnceExactly(s: string, a: string, b: string)
    ensures SplitOnce(s) == Some((a, b)) <==> SlashFree(a) && s == a + ['/'] + b
  {
    if s != [] && s[0] == '/' {
      assert a != [] ==> (a + ['/'] + b)[0] == a[0];
      assert s == [] + ['/'] + s[1..];
    } else if s != [] {
      if a != [] {
        SplitOnceExactly(s[1..], a[1..], b);
        assert a == [a[0]] + a[1..];
        if SlashFree(a[1..]) && s[1..] == a[1..] + ['/'] + b && a[0] == s[0] {
          assert s == [s[0]] + s[1..];
        }
        if s == a + ['/'] + b {
          assert s[1..] == a[1..] + ['/'] + b;
        }
      }
    }
  }

  lemma StripPrefixExactly(s: string, prefix: string, rest: string)
    ensures StripPrefix(s, prefix) == Some(rest) <==> s == prefix + rest
  {
  }

  // A manifest request comes from exactly one text: the one printed for its id,
  // for every id without a slash; an id with one is never given back.
  lemma ManifestUriExactly(uri: string, id: string)
    ensures ParseUri(uri) == Some(Manifest(id)) <==> SlashFree(id) && uri == ManifestUri(id)
  {
    var rest := id + ['/'] + "manifest";
    assert ManifestUri(id) == SCHEME + rest;
    StripPrefixExactly(uri, SCHEME, rest);
    SplitOnceExactly(rest, id, "manifest");
    if ParseUri(uri) == Some(Manifest(id)) {
      var given := StripPrefix(uri, SCHEME).value;
      SplitOnceExactly(given, id, "manifest");
      assert given == rest;
    }
  }

  function ChunkText(id: string, digits: string): string {
    SCHEME + id + CHUNK_PREFIX + digits
  }

  lemma ChunkTextParts(id: string, digits: string)
    ensures ChunkText(id, digits) == SCHEME + (id + ['/'] + ("chunk/" + digits))
  {
  }

  lemma ChunkTextParses(id: string, digits: string, index: nat)
    requires SlashFree(id) && ParseUnsigned(digits) == Some(index)
    ensures ParseUri(ChunkText(id, digits)) == Some(Chunk(id, index))
  {
    var suffix := "chunk/" + digits;
    var rest := id + ['/'] + suffix;
    ChunkTextParts(id, digits);
    StripPrefixExactly(ChunkText(id, digits), SCHEME, rest);
    SplitOnceExactly(rest, id, suffix);
    StripPrefixExactly(suffix, "chunk/", digits);
    assert suffix[0] == 'c';
  }

  lemma ChunkRequestText(uri: string, id: string, index: nat) returns (digits: string)
    requires ParseUri(uri) == Some(Chunk(id, index))
    ensures SlashFree(id) && ParseUnsigned(digits) == Some(index) && uri == ChunkText(id, digits)
  {
    var rest := StripPrefix(uri, SCHEME).value;
    var suffix := SplitOnce(rest).value.1;
    digits := StripPrefix(suffix, "chunk/").value;
    SplitOnceExactly(rest, id, suffix);
    StripPrefixExactly(suffix, "chunk/", digits);
    StripPrefixExactly(uri, SCHEME, rest);
    ChunkTextParts(id, digits);
  }

  // A chunk request comes from exactly the texts made of its id and a number
  // that reads as its index.
  lemma ChunkUriExactly(uri: string, id: string, index: nat)
    ensures ParseUri(uri) == Some(Chunk(id, index))
            <==> SlashFree(id) && exists digits :: ParseUnsigned(digits) == Some(index) && uri == ChunkText(id, digits)
  {
    if ParseUri(uri) == Some(Chunk(id, index)) {
      var digits := ChunkRequestText(uri, id, index);
    }
    if SlashFree(id) {
      forall digits | ParseUnsigned(digits) == Some(index) && uri == ChunkText(id, digits)
        ensures ParseUri(uri) == Some(Chunk(id, index))
      {
        ChunkTextParses(id, digits, index);
      }
    }
  }

  // Printing and parsing a chunk request give back its id and index exactly
  // when the id has no slash and the index fits the word.
  lemma PrintedChunkParses(id: string, index: nat)
    ensures ParseUri(ChunkUri(id, index)) == Some(Chunk(id, index)) <==> SlashFree(id) && index <= U64_MAX
  {
    PrintedNumberParses(index);
    assert ChunkUri(id, index) == ChunkText(id, Decimal(index));
    if SlashFree(id) && index <= U64_MAX {
      ChunkTextParses(id, Decimal(index), index);
    }
    if ParseUri(ChunkUri(id, index)) == Some(Chunk(id, index)) {
      var digits := ChunkRequestText(ChunkUri(id, index), id, index);
    }
  }

  // -------------------------------------------------------------------------
  // Chunks
  // -------------------------------------------------------------------------

  const ARTIFACT_CHUNK_BYTES: nat := 131072

  type Byte = b: nat | b < 256

  datatype ChunkRead = Text(bytes: seq<Byte>) | Overflow | OutOfRange

  function ReadChunk(payload: seq<Byte>, index: nat): ChunkRead {
    var start := index * ARTIFACT_CHUNK_BYTES;
    if start > U64_MAX then Overflow
    else if start >= |payload| then OutOfRange
    else Text(payload[start..start + Min(|payload| - start, ARTIFACT_CHUNK_BYTES)])
  }

  // Rounded up.
  function ChunkCount(length: nat): nat {
    (length + ARTIFACT_CHUNK_BYTES - 1) / ARTIFACT_CHUNK_BYTES
  }

  // A chunk can be read exactly when its index is below the recorded count,
  // and then the multiplication does not overflow.
  lemma ChunkReadsExactly(payload: seq<Byte>, index: nat)
    requires |payload| <= U64_MAX
    ensures ReadChunk(payload, index).Text? <==> index < ChunkCount(|payload|)
  {
  }

  // The first n chunks put together.
  function Chunks(payload: seq<Byte>, n: nat): seq<Byte>
    requires n <= ChunkCount(|payload|) && |payload| <= U64_MAX
  {
    if n == 0 then []
    else
      ChunkReadsExactly(payload, n - 1);
      Chunks(payload, n - 1) + ReadChunk(payload, n - 1).bytes
  }

  lemma {:induction false} ChunksArePrefix(payload: seq<Byte>, n: nat)
    requires n <= ChunkCount(|payload|) && |payload| <= U64_MAX
    ensures Chunks(payload, n) == payload[..Min(n * ARTIFACT_CHUNK_BYTES, |payload|)]
  {
    if n > 0 {
      ChunkReadsExactly(payload, n - 1);
      ChunksArePrefix(payload, n - 1);
    }
  }

  // Reading every chunk in turn gives back the payload, whatever its length.
  lemma ChunksReassemble(payload: seq<Byte>)
    requires |payload| <= U64_MAX
    ensures Chunks(payload, ChunkCount(|payload|)) == payload
  {
    ChunksArePrefix(payload, ChunkCount(|payload|));
  }

  // -------------------------------------------------------------------------
  // The metadata file
  // -------------------------------------------------------------------------

  type Path = seq<string>

  datatype Record = Record(
    id: string,
    sourceTool: string,
    sourceServer: Option<string>,
    sourceOwnTool: Option<string>,
    originalSizeBytes: nat,
    createdAt: nat,
    expiresAt: nat,
    payloadPath: Path,
    materializedPath: Option<Path>,
    chunkCount: nat,
    preview: string)

  datatype Metadata = Metadata(
    id: string,
    sourceTool: string,
    sourceServer: Option<string>,
    sourceOwnTool: Option<string>,
    originalSizeBytes: nat,
    createdAtSecs: nat,
    expiresAtSecs: nat,
    payloadFile: string,
    materializedFile: Option<string>,
    chunkCount: nat,
    preview: string)

  function FileName(path: Path): Option<string> {
    if path == [] then None else Some(path[|path| - 1])
  }

  function ToMetadata(r: Record): Metadata {
    Metadata(r.id, r.sourceTool, r.sourceServer, r.sourceOwnTool, r.originalSizeBytes,
             r.createdAt / SECOND, r.expiresAt / SECOND,
             if FileName(r.payloadPath).Some? then FileName(r.payloadPath).value else "",
             if r.materializedPath.Some? then FileName(r.materializedPath.value) else None,
             r.chunkCount, r.preview)
  }

  function FromMetadata(dir: Path, m: Metadata): Record {
    Record(m.id, m.sourceTool, m.sourceServer, m.sourceOwnTool, m.originalSizeBytes,
           m.createdAtSecs * SECOND, m.expiresAtSecs * SECOND,
           dir + [m.payloadFile],
           if m.materializedFile.Some? then Some(dir + [m.materializedFile.value]) else None,
           m.chunkCount, m.preview)
  }

  predicate DirectlyIn(dir: Path, path: Path) {
    |path| == |dir| + 1 && path[..|dir|] == dir
  }

  // A record written to its directory and read back is the same record exactly
  // when its times are whole seconds and its files lie in that directory.
  lemma RehydratesExactly(dir: Path, r: Record)
    ensures FromMetadata(dir, ToMetadata(r)) == r
            <==> r.createdAt % SECOND == 0 && r.expiresAt % SECOND == 0
                 && DirectlyIn(dir, r.payloadPath)
                 && (r.materializedPath.Some? ==> DirectlyIn(dir, r.materializedPath.value))
  {
    var back := FromMetadata(dir, ToMetadata(r));
    assert back.createdAt == r.createdAt <==> r.createdAt % SECOND == 0;
    assert back.expiresAt == r.expiresAt <==> r.expiresAt % SECOND == 0;
    InDirectory(dir, r.payloadPath);
    if r.materializedPath.Some? {
      InDirectory(dir, r.materializedPath.value);
    }
  }

  lemma InDirectory(dir: Path, path: Path)
    ensures DirectlyIn(dir, path) <==> path != [] && path == dir + [path[|path| - 1]]
    ensures DirectlyIn(dir, path) ==> FileName(path).Some?
  {
  }

  // Writing again what was read back changes nothing more.
  lemma RehydrationSettles(dir: Path, m: Metadata)
    ensures ToMetadata(FromMetadata(dir, m)) == m
  {
  }
}

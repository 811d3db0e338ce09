/**
 * The import of indexed chunks into the `chunks` table: for every entry of the
 * vector store's embedding dictionary one row is built from the docstore text, or
 * else from a fixed 400-character window of the knowledge file, with its preview,
 * length, embedding dimension and document id.
 */
module ChunkImport {
  import opened Wrappers
  import opened PyText
  import opened KnowledgeService

  const ChunkSize: nat := 400
  const Overlap: nat := 50

  /** The distance between the starts of consecutive windows. */
  const Stride: nat := ChunkSize - Overlap

  /** A Python slice bound: negative bounds count from the end, and every bound is
      clamped to the string. */
  function SliceBound(n: int, i: int): (b: nat)
    requires n >= 0
    ensures b <= n
    ensures 0 <= i <= n ==> b == i
  {
    if i < 0 then (if i + n < 0 then 0 else i + n) else if i > n then n else i
  }

  /** Python's `s[start:end]`. */
  function PySlice(s: string, start: int, end: int): (r: string)
    ensures 0 <= start <= end <= |s| ==> r == s[start..end]
    ensures 0 <= start <= |s| < end ==> r == s[start..]
  {
    var lo := SliceBound(|s|, start);
    var hi := SliceBound(|s|, end);
    if lo < hi then s[lo..hi] else []
  }

  /** The text a chunk is rebuilt from: `file_text[start:end]` with
      `start = chunk_index * (400 - 50)`, or nothing once `start` is past the end. */
  function Window(text: string, chunkIndex: int): (w: Option<string>)
    ensures w.Some? <==> chunkIndex * Stride < |text|
    ensures chunkIndex >= 0 && w.Some? ==>
              var start := chunkIndex * Stride;
              0 < |w.value| <= ChunkSize
              && w.value == text[start .. if start + ChunkSize <= |text| then start + ChunkSize else |text|]
  {
    var start := chunkIndex * (ChunkSize - Overlap);
    var end := start + ChunkSize;
    if start < |text| then Some(PySlice(text, start, end)) else None
  }

  /** A full window shares its last fifty characters with the next window. */
  lemma WindowOverlap(text: string, i: nat)
    requires Window(text, i).Some? && |Window(text, i).value| == ChunkSize
    requires Window(text, i + 1).Some?
    ensures Window(text, i).value[Stride..] == Window(text, i + 1).value[..Overlap]
  {
    var start := i * Stride;
    var next := (i + 1) * Stride;
    assert next == start + Stride;
    var w := Window(text, i).value;
    var v := Window(text, i + 1).value;
    assert start + ChunkSize <= |text|;
    if next + ChunkSize <= |text| {
      assert v == text[next..next + ChunkSize];
    } else {
      assert v == text[next..];
    }
    assert |v| >= Overlap;
    forall k | 0 <= k < Overlap ensures w[Stride..][k] == v[..Overlap][k] {
      assert w[Stride + k] == text[start + Stride + k];
    }
  }

  /** The metadata of one node, as the vector store records it; a missing key is None. */
  datatype Metadata = Metadata(fileName: Option<string>, fileType: Option<string>,
                               chunkIndex: Option<int>, documentId: Option<string>,
                               docId: Option<string>, fileSize: Option<int>,
                               updatedAt: Option<real>)

  /** `metadata_dict.get(chunk_id, {})` for an absent entry. */
  const NoMetadata := Metadata(None, None, None, None, None, None, None)

  /** A local date and time, as `datetime.fromtimestamp` gives it. */
  datatype LocalTime = LocalTime(year: int, month: int, day: int, hour: int, minute: int, second: real)

  /** `file_updated_at`: for a truthy (non-zero) `updated_at`, the local time that
      `fromTimestamp` gives for it, which is None when the conversion raises; None for
      a missing or zero `updated_at`. */
  function FileUpdatedAt(updatedAt: Option<real>, fromTimestamp: real -> Option<LocalTime>): (t: Option<LocalTime>)
    ensures updatedAt.None? || updatedAt.value == 0.0 ==> t.None?
    ensures updatedAt.Some? && updatedAt.value != 0.0 ==> t == fromTimestamp(updatedAt.value)
  {
    if updatedAt.Some? && updatedAt.value != 0.0 then fromTimestamp(updatedAt.value) else None
  }

  /** Python truthiness of an optional string. */
  predicate Truthy(s: Option<string>)
  {
    s.Some? && s.value != []
  }

  /** The chunk text: the docstore's text when it is non-empty; otherwise, when the
      metadata names a file and a chunk index, the rebuilt window (None when the file
      cannot be read or the window is past its end); otherwise the docstore's value. */
  function ChunkText(docText: Option<string>, meta: Metadata, dir: Directory): (t: Option<string>)
    ensures Truthy(docText) ==> t == docText
    ensures t != docText ==> Truthy(meta.fileName) && meta.chunkIndex.Some?
    ensures !Truthy(docText) && Truthy(meta.fileName) && meta.chunkIndex.Some? ==>
              var read := GetFileContent(dir, meta.fileName.value);
              (read.Ok? ==> t == Window(read.value.content, meta.chunkIndex.value))
              && (read.Err? ==> t.None?)
  {
    if Truthy(docText) then docText
    else if Truthy(meta.fileName) && meta.chunkIndex.Some? then
      match GetFileContent(dir, meta.fileName.value)
      case Ok(c) => Window(c.content, meta.chunkIndex.value)
      case Err(_) => None
    else docText
  }

  /** `text_preview`: the first 200 characters and "..." for a longer text. */
  function Preview(text: Option<string>): (p: Option<string>)
    ensures p.Some? <==> Truthy(text)
    ensures p.Some? ==> |p.value| <= 203 && StartsWith(p.value, Take(text.value, 200))
    ensures p.Some? && |text.value| <= 200 ==> p == text
    ensures p.Some? && |text.value| > 200 ==> p.value == text.value[..200] + "..."
  {
    if Truthy(text) then Some(Truncate(text.value, 200)) else None
  }

  /** `text_length`: None for an empty or missing text. */
  function TextLength(text: Option<string>): (n: Option<nat>)
    ensures n.Some? <==> Truthy(text)
    ensures n.Some? ==> n.value == |text.value| > 0
  {
    if Truthy(text) then Some(|text.value|) else None
  }

  /** `embedding_dimension`: the vector's length, None for an empty vector. */
  function Dimension(vector: seq<real>): (d: Option<nat>)
    ensures d.Some? <==> |vector| > 0
    ensures d.Some? ==> d.value == |vector|
  {
    if |vector| > 0 then Some(|vector|) else None
  }

  /** `metadata.get('document_id') or metadata.get('doc_id') or ref_doc_id`. */
  function DocumentId(meta: Metadata, refDocId: Option<string>): (id: Option<string>)
    ensures Truthy(meta.documentId) ==> id == meta.documentId
    ensures !Truthy(meta.documentId) && Truthy(meta.docId) ==> id == meta.docId
    ensures !Truthy(meta.documentId) && !Truthy(meta.docId) ==> id == refDocId
  {
    if Truthy(meta.documentId) then meta.documentId
    else if Truthy(meta.docId) then meta.docId
    else refDocId
  }

  /** One row of the `chunks` table. */
  datatype ChunkRow = ChunkRow(
    chunkId: string, fileName: string, fileType: string, chunkIndex: Option<int>,
    text: Option<string>, preview: Option<string>, length: Option<nat>,
    documentId: Option<string>, refDocId: Option<string>, fileSize: Option<int>,
    fileUpdatedAt: Option<LocalTime>, embedding: seq<real>, dimension: Option<nat>,
    metadataJson: Metadata)

  /** The sources the import reads: the vector store's dictionaries and the docstore's
      texts, each by chunk id. */
  datatype Stores = Stores(
    metadata: map<string, Metadata>,
    refDocIds: map<string, string>,
    docstore: map<string, Option<string>>)
  {
    function MetadataOf(id: string): Metadata
    {
      if id in metadata then metadata[id] else NoMetadata
    }

    function RefDocIdOf(id: string): Option<string>
    {
      if id in refDocIds then Some(refDocIds[id]) else None
    }

    /** The docstore's `text` for a chunk, None when the chunk or its text is absent. */
    function DocTextOf(id: string): Option<string>
    {
      if id in docstore then docstore[id] else None
    }
  }

  /** The row built for one `(chunk_id, embedding)` entry; the row's `metadata_json`
      is the metadata it serialises. */
  function RowFor(id: string, vector: seq<real>, stores: Stores, dir: Directory,
                  fromTimestamp: real -> Option<LocalTime>): (row: ChunkRow)
    ensures row.chunkId == id && row.embedding == vector
    ensures row.metadataJson == stores.MetadataOf(id)
    ensures row.fileName == stores.MetadataOf(id).fileName.GetOr("unknown")
    ensures row.fileType == stores.MetadataOf(id).fileType.GetOr("unknown")
    ensures row.chunkIndex == stores.MetadataOf(id).chunkIndex
    ensures row.fileSize == stores.MetadataOf(id).fileSize
    ensures row.refDocId == stores.RefDocIdOf(id)
    ensures row.text == ChunkText(stores.DocTextOf(id), stores.MetadataOf(id), dir)
    ensures row.preview == Preview(row.text) && row.length == TextLength(row.text)
    ensures row.dimension == Dimension(vector)
    ensures row.documentId == DocumentId(stores.MetadataOf(id), stores.RefDocIdOf(id))
    ensures row.fileUpdatedAt == FileUpdatedAt(stores.MetadataOf(id).updatedAt, fromTimestamp)
  {
    var meta := stores.MetadataOf(id);
    var text := ChunkText(stores.DocTextOf(id), meta, dir);
    ChunkRow(id, meta.fileName.GetOr("unknown"), meta.fileType.GetOr("unknown"), meta.chunkIndex,
             text, Preview(text), TextLength(text), DocumentId(meta, stores.RefDocIdOf(id)),
             stores.RefDocIdOf(id), meta.fileSize, FileUpdatedAt(meta.updatedAt, fromTimestamp),
             vector, Dimension(vector), meta)
  }

  /** A file name is read again only after reading it failed. */
  predicate FetchedOnce(fetches: seq<string>, dir: Directory)
  {
    forall i, j :: 0 <= i < j < |fetches| && fetches[i] == fetches[j] ==> GetFileContent(dir, fetches[i]).Err?
  }

  /** Every cached content is what reading that file returns. */
  predicate CacheSound(cache: map<string, string>, dir: Directory)
  {
    forall n :: n in cache ==> GetFileContent(dir, n).Ok? && cache[n] == GetFileContent(dir, n).value.content
  }

  /** Every file that was read successfully is in the cache. */
  predicate Recorded(fetches: seq<string>, cache: map<string, string>, dir: Directory)
  {
    forall i :: 0 <= i < |fetches| && GetFileContent(dir, fetches[i]).Ok? ==> fetches[i] in cache
  }

  /** The text of one chunk, read through `file_content_cache`: a file is read only
      when the docstore text is empty, the metadata names the file and a chunk index,
      and the file is not cached yet; only a successful read is cached. */
  method ResolveText(docText: Option<string>, meta: Metadata, dir: Directory,
                     cache: map<string, string>, fetches: seq<string>)
    returns (text: Option<string>, newCache: map<string, string>, newFetches: seq<string>)
    requires CacheSound(cache, dir) && Recorded(fetches, cache, dir) && FetchedOnce(fetches, dir)
    ensures text == ChunkText(docText, meta, dir)
    ensures CacheSound(newCache, dir) && Recorded(newFetches, newCache, dir) && FetchedOnce(newFetches, dir)
    ensures Truthy(docText) ==> newCache == cache && newFetches == fetches
    ensures newFetches == fetches || (Truthy(meta.fileName) && newFetches == fetches + [meta.fileName.value])
  {
    text, newCache, newFetches := docText, cache, fetches;
    if !Truthy(docText) {
      var name := meta.fileName.GetOr("");
      if name != [] && meta.chunkIndex.Some? {
        if name !in cache {
          var got := GetFileContent(dir, name);
          newFetches := fetches + [name];
          if got.Ok? {
            newCache := cache[name := got.value.content];
          }
        }
        if name in newCache {
          text := Window(newCache[name], meta.chunkIndex.value);
        } else {
          text := None;
        }
      }
    }
  }

  /** The `chunks` table. */
  class ChunkTable {
    var rows: seq<ChunkRow>

    constructor()
      ensures rows == []
    {
      rows := [];
    }

    /** `import_chunks_to_db`: the table is emptied first; with no vector store the run
        stops there. Otherwise one row per embedding entry, in order, and `fetches` logs
        every call of `get_file_content`; `fromTimestamp` is `datetime.fromtimestamp`. */
    method Import(embeddings: Option<seq<(string, seq<real>)>>, stores: Stores, dir: Directory,
                  fromTimestamp: real -> Option<LocalTime>)
      returns (imported: Option<nat>, fetches: seq<string>)
      modifies this
      ensures embeddings.None? ==> rows == [] && imported.None? && fetches == []
      ensures embeddings.Some? ==>
                imported == Some(|embeddings.value|) && |rows| == |embeddings.value|
                && forall i :: 0 <= i < |rows| ==>
                     rows[i] == RowFor(embeddings.value[i].0, embeddings.value[i].1, stores, dir, fromTimestamp)
      ensures FetchedOnce(fetches, dir)
    {
      rows := [];
      fetches := [];
      if embeddings.None? {
        return None, fetches;
      }
      var entries := embeddings.value;
      var cache: map<string, string> := map[];
      var count := 0;
      for k := 0 to |entries|
        invariant count == k == |rows|
        invariant forall i :: 0 <= i < k ==> rows[i] == RowFor(entries[i].0, entries[i].1, stores, dir, fromTimestamp)
        invariant CacheSound(cache, dir) && Recorded(fetches, cache, dir) && FetchedOnce(fetches, dir)
      {
        var (id, vector) := entries[k];
        var meta := stores.MetadataOf(id);
        var text;
        text, cache, fetches := ResolveText(stores.DocTextOf(id), meta, dir, cache, fetches);
        var ref := stores.RefDocIdOf(id);
        rows := rows + [ChunkRow(id, meta.fileName.GetOr("unknown"), meta.fileType.GetOr("unknown"),
                                 meta.chunkIndex, text, Preview(text), TextLength(text),
                                 DocumentId(meta, ref), ref, meta.fileSize,
                                 FileUpdatedAt(meta.updatedAt, fromTimestamp),
                                 vector, Dimension(vector), meta)];
        count := count + 1;
      }
      imported := Some(count);
    }
  }
}

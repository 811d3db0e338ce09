/** Shaping of retrieved chunks into search results (`RAGService.search`). */
module SearchResults {
  import opened Wrappers
  import opened PyText

  /** A chunk as the retriever hands it over. Every field the code reads through a
      `hasattr` or a metadata `get` may be missing; a missing `score` is a node
      without that attribute. */
  datatype RetrievedNode = RetrievedNode(
    chunkId: Option<string>,
    text: Option<string>,
    score: Option<real>,
    fileName: Option<string>,
    fileType: Option<string>,
    chunkIndex: Option<int>)

  /** One entry of `results`. */
  datatype Hit = Hit(
    chunkId: Option<string>,
    text: string,
    score: real,
    fileName: string,
    fileType: string,
    chunkIndex: int)

  const Unknown := "unknown"

  /** One result dictionary, with the defaults the code uses for missing values. */
  function ShapeHit(n: RetrievedNode): Hit
  {
    Hit(n.chunkId, n.text.GetOr(""), n.score.GetOr(0.0), n.fileName.GetOr(Unknown),
        n.fileType.GetOr(Unknown), n.chunkIndex.GetOr(-1))
  }

  /** A node that carries no metadata, score or text gets the documented defaults. */
  lemma BareNodeDefaults(n: RetrievedNode)
    requires n.text.None? && n.score.None? && n.fileName.None? && n.fileType.None? && n.chunkIndex.None?
    ensures ShapeHit(n) == Hit(n.chunkId, "", 0.0, "unknown", "unknown", -1)
  {
  }

  /** Metadata that is present is copied unchanged. */
  lemma PresentMetadataKept(n: RetrievedNode)
    requires n.fileName.Some? && n.fileType.Some? && n.chunkIndex.Some?
    ensures ShapeHit(n).fileName == n.fileName.value
    ensures ShapeHit(n).fileType == n.fileType.value
    ensures ShapeHit(n).chunkIndex == n.chunkIndex.value
  {
  }

  /** The file names of the results. */
  function FileNames(hits: seq<Hit>): (names: set<string>)
    ensures forall f :: f in names <==> exists i :: 0 <= i < |hits| && hits[i].fileName == f
  {
    set i | 0 <= i < |hits| :: hits[i].fileName
  }

  /** `list(s)` for a set: every element once, in an order the model leaves open. */
  method ListOfSet(s: set<string>) returns (xs: seq<string>)
    ensures NoDuplicates(xs)
    ensures forall x :: x in xs <==> x in s
    ensures |xs| == |s|
  {
    xs := [];
    var rest := s;
    while rest != {}
      invariant rest !! set x | x in xs
      invariant forall x :: x in s <==> x in rest || x in xs
      invariant NoDuplicates(xs)
      invariant |xs| + |rest| == |s|
      decreases |rest|
    {
      var x :| x in rest;
      xs := xs + [x];
      rest := rest - {x};
    }
  }

  /** The loop of `search`: one result per retrieved node, in retrieval order, and
      the set of their file names as a list. */
  method ShapeResults(nodes: seq<RetrievedNode>) returns (results: seq<Hit>, referenced: seq<string>)
    ensures |results| == |nodes|
    ensures forall i :: 0 <= i < |nodes| ==> results[i] == ShapeHit(nodes[i])
    ensures NoDuplicates(referenced)
    ensures forall f :: f in referenced <==> f in FileNames(results)
  {
    results := [];
    var files: set<string> := {};
    for k := 0 to |nodes|
      invariant |results| == k
      invariant forall i :: 0 <= i < k ==> results[i] == ShapeHit(nodes[i])
      invariant files == FileNames(results)
    {
      var hit := ShapeHit(nodes[k]);
      assert FileNames(results + [hit]) == FileNames(results) + {hit.fileName} by {
        var r := results + [hit];
        forall f | f in FileNames(r) ensures f in FileNames(results) + {hit.fileName} {
          var i :| 0 <= i < |r| && r[i].fileName == f;
          if i < k { assert results[i] == r[i]; }
        }
        forall f | f in FileNames(results) ensures f in FileNames(r) {
          var i :| 0 <= i < |results| && results[i].fileName == f;
          assert r[i] == results[i];
        }
        assert r[k] == hit;
      }
      results := results + [hit];
      files := files + {hit.fileName};
    }
    referenced := ListOfSet(files);
  }
}

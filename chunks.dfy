/** The lookup from a curie id to the embedding chunk that holds its
    vector (pubmed_embedding/utils.py:57-156). The chunk list of a version
    (`get_metadata(version)["chunks"]`) is a parameter: chunk `k` holds the
    vectors of the ids in the half-open range `[start, end)`, row `i` of its
    file being the vector of id `start + i`. */
module EmbeddingChunks {
  import opened Results
  import opened Conversions

  datatype Chunk = Chunk(start: int, end: int, url: string)

  predicate Holds(c: Chunk, curieId: int)
  {
    c.start <= curieId < c.end
  }

  /** The first chunk from `k` on that holds the id. */
  function FirstHolding(chunks: seq<Chunk>, curieId: int, k: nat): (r: Result<nat>)
    requires k <= |chunks|
    ensures r.Ok? ==> k <= r.value < |chunks| && Holds(chunks[r.value], curieId)
                      && forall j :: k <= j < r.value ==> !Holds(chunks[j], curieId)
    ensures r.Err? <==> forall j :: k <= j < |chunks| ==> !Holds(chunks[j], curieId)
    ensures r.Err? ==> r.error == UnmappedCurieId(curieId)
    decreases |chunks| - k
  {
    if k == |chunks| then Err(UnmappedCurieId(curieId))
    else if Holds(chunks[k], curieId) then Ok(k)
    else FirstHolding(chunks, curieId, k + 1)
  }

  /** The index of the first chunk holding the id, or the `ValueError` of
      lines 73-76 when none does. */
  function ChunkIdOf(chunks: seq<Chunk>, curieId: int): (r: Result<nat>)
    ensures r.Ok? ==> r.value < |chunks| && Holds(chunks[r.value], curieId)
                      && forall j :: 0 <= j < r.value ==> !Holds(chunks[j], curieId)
    ensures r.Err? <==> forall j :: 0 <= j < |chunks| ==> !Holds(chunks[j], curieId)
    ensures r.Err? ==> r.error == UnmappedCurieId(curieId)
  {
    FirstHolding(chunks, curieId, 0)
  }

  /** `get_chunk_id_from_curie_id`: the `for` loop over `enumerate(chunks)`
      returning at the first chunk that holds the id. */
  method GetChunkIdFromCurieId(chunks: seq<Chunk>, curieId: int) returns (r: Result<nat>)
    ensures r == ChunkIdOf(chunks, curieId)
  {
    var k := 0;
    while k < |chunks|
      invariant 0 <= k <= |chunks|
      invariant FirstHolding(chunks, curieId, k) == ChunkIdOf(chunks, curieId)
    {
      if curieId >= chunks[k].start && curieId < chunks[k].end {
        return Ok(k);
      }
      k := k + 1;
    }
    return Err(UnmappedCurieId(curieId));
  }

  /** When chunks do not overlap, the chunk holding an id is the only one. */
  lemma ChunkIdUnique(chunks: seq<Chunk>, curieId: int, k: nat)
    requires k < |chunks| && Holds(chunks[k], curieId)
    requires forall i, j :: 0 <= i < j < |chunks| ==> chunks[i].end <= chunks[j].start
    ensures ChunkIdOf(chunks, curieId) == Ok(k)
  {
  }

  // ---------------------------------------------------------------------
  // `restrict_curie_id_to_chunk` (lines 79-94)

  /** As written: the chunk index minus the chunk's start. */
  function RestrictCurieIdToChunkAsWritten(chunks: seq<Chunk>, curieId: int): (r: Result<int>)
    ensures r.Ok? <==> ChunkIdOf(chunks, curieId).Ok?
    ensures r.Ok? ==> r.value == ChunkIdOf(chunks, curieId).value - chunks[ChunkIdOf(chunks, curieId).value].start
  {
    var k :- ChunkIdOf(chunks, curieId);
    Ok(k - chunks[k].start)
  }

  /** As intended: the row of the id within its chunk's file, the index
      `get_vector_from_curie_id` (lines 225-229) takes into that chunk. */
  function RestrictCurieIdToChunk(chunks: seq<Chunk>, curieId: int): (r: Result<int>)
    ensures r.Ok? <==> ChunkIdOf(chunks, curieId).Ok?
    ensures r.Err? ==> r.error == UnmappedCurieId(curieId)
    ensures r.Ok? ==> var c := chunks[ChunkIdOf(chunks, curieId).value];
                      0 <= r.value < c.end - c.start && c.start + r.value == curieId
  {
    var k :- ChunkIdOf(chunks, curieId);
    Ok(curieId - chunks[k].start)
  }

  /** The two agree exactly when the chunk's index equals the id itself. */
  lemma RestrictAgreesOnlyAtOwnIndex(chunks: seq<Chunk>, curieId: int)
    requires ChunkIdOf(chunks, curieId).Ok?
    ensures RestrictCurieIdToChunkAsWritten(chunks, curieId) == RestrictCurieIdToChunk(chunks, curieId)
            <==> ChunkIdOf(chunks, curieId).value == curieId
  {
  }

  /** Two chunks of ten ids each, and the id 15: the intended row is 5, the
      code as written gives -9, a negative index that selects a row counted
      from the end of the chunk. */
  lemma RestrictCounterexample()
    ensures RestrictCurieIdToChunkAsWritten([Chunk(0, 10, "a"), Chunk(10, 20, "b")], 15) == Ok(-9)
    ensures RestrictCurieIdToChunk([Chunk(0, 10, "a"), Chunk(10, 20, "b")], 15) == Ok(5)
  {
    var chunks := [Chunk(0, 10, "a"), Chunk(10, 20, "b")];
    assert !Holds(chunks[0], 15) && Holds(chunks[1], 15);
    assert ChunkIdOf(chunks, 15) == Ok(1);
  }

  // ---------------------------------------------------------------------
  // `get_unique_chunk_ids_from_curie_ids` (lines 97-113)

  /** The set comprehension: the ids are mapped in order, and the first
      unmapped one raises. */
  function UniqueChunkIds(chunks: seq<Chunk>, curieIds: seq<int>): (r: Result<set<nat>>)
    ensures r.Ok? <==> forall i :: 0 <= i < |curieIds| ==> ChunkIdOf(chunks, curieIds[i]).Ok?
    ensures r.Ok? ==> forall k :: k in r.value <==> exists i :: 0 <= i < |curieIds| && ChunkIdOf(chunks, curieIds[i]) == Ok(k)
    ensures r.Err? ==> exists i :: 0 <= i < |curieIds| && r.error == UnmappedCurieId(curieIds[i])
                                   && ChunkIdOf(chunks, curieIds[i]).Err?
                                   && forall j :: 0 <= j < i ==> ChunkIdOf(chunks, curieIds[j]).Ok?
    decreases |curieIds|
  {
    if curieIds == [] then Ok({})
    else
      var k :- ChunkIdOf(chunks, curieIds[0]);
      var others :- UniqueChunkIds(chunks, curieIds[1..]);
      assert forall i :: 1 <= i < |curieIds| ==> curieIds[i] == curieIds[1..][i - 1];
      Ok({k} + others)
  }

  /** Every chunk id of the set names a chunk. */
  lemma UniqueChunkIdsInRange(chunks: seq<Chunk>, curieIds: seq<int>)
    requires UniqueChunkIds(chunks, curieIds).Ok?
    ensures forall k :: k in UniqueChunkIds(chunks, curieIds).value ==> k < |chunks|
  {
    forall k | k in UniqueChunkIds(chunks, curieIds).value ensures k < |chunks| {
      var i :| 0 <= i < |curieIds| && ChunkIdOf(chunks, curieIds[i]) == Ok(k);
    }
  }

  // ---------------------------------------------------------------------
  // `get_unique_urls_from_curie_ids` (lines 116-136)

  /** The two lists the function returns: the chunk ids of the set, each
      once, in the order the set is iterated, and their urls. */
  predicate UrlsOf(chunks: seq<Chunk>, ids: set<nat>, urls: seq<string>, chunkIds: seq<nat>)
  {
    && |urls| == |chunkIds|
    && (forall i, j :: 0 <= i < j < |chunkIds| ==> chunkIds[i] != chunkIds[j])
    && (forall k :: k in ids ==> k in chunkIds)
    && (forall i :: 0 <= i < |chunkIds| ==> chunkIds[i] in ids)
    && forall i :: 0 <= i < |chunkIds| ==> chunkIds[i] < |chunks| && urls[i] == chunks[chunkIds[i]].url
  }

  /** The loop of lines 132-134, appending to two lists; the set's
      iteration order is not fixed, so any order of its elements is one the
      method may produce. */
  method UrlsOfChunkIds(chunks: seq<Chunk>, ids: set<nat>) returns (urls: seq<string>, chunkIds: seq<nat>)
    requires forall k :: k in ids ==> k < |chunks|
    ensures UrlsOf(chunks, ids, urls, chunkIds)
  {
    var left := ids;
    chunkIds := [];
    urls := [];
    while left != {}
      invariant left <= ids
      invariant forall k :: k in ids ==> k in left || k in chunkIds
      invariant forall i :: 0 <= i < |chunkIds| ==> chunkIds[i] in ids && chunkIds[i] !in left
      invariant |urls| == |chunkIds|
      invariant forall i, j :: 0 <= i < j < |chunkIds| ==> chunkIds[i] != chunkIds[j]
      invariant forall i :: 0 <= i < |chunkIds| ==> chunkIds[i] < |chunks| && urls[i] == chunks[chunkIds[i]].url
      decreases |left|
    {
      var k :| k in left;
      chunkIds := chunkIds + [k];
      urls := urls + [chunks[k].url];
      left := left - {k};
    }
  }

  /** `get_unique_urls_from_curie_ids`: the unique chunk ids, or the error
      of the first unmapped id, and the url of each. */
  method GetUniqueUrlsFromCurieIds(chunks: seq<Chunk>, curieIds: seq<int>)
    returns (r: Result<(seq<string>, seq<nat>)>)
    ensures r.Ok? <==> UniqueChunkIds(chunks, curieIds).Ok?
    ensures r.Err? ==> r.error == UniqueChunkIds(chunks, curieIds).error
    ensures r.Ok? ==> UrlsOf(chunks, UniqueChunkIds(chunks, curieIds).value, r.value.0, r.value.1)
  {
    var unique := UniqueChunkIds(chunks, curieIds);
    if unique.Err? {
      return Err(unique.error);
    }
    UniqueChunkIdsInRange(chunks, curieIds);
    var urls, chunkIds := UrlsOfChunkIds(chunks, unique.value);
    return Ok((urls, chunkIds));
  }

  // ---------------------------------------------------------------------
  // `get_embedding_chunk_path_from_curie_id` (lines 139-156)

  function ChunkFile(downloadsDirectory: string, version: string, chunkId: nat): string
  {
    downloadsDirectory + "/" + version + "/" + NatToDecimal(chunkId) + ".npy"
  }

  function ChunkPathFromCurieId(chunks: seq<Chunk>, curieId: int, version: string, downloadsDirectory: string): (r: Result<string>)
    ensures r.Ok? <==> ChunkIdOf(chunks, curieId).Ok?
    ensures r.Err? ==> r.error == UnmappedCurieId(curieId)
  {
    var k :- ChunkIdOf(chunks, curieId);
    Ok(ChunkFile(downloadsDirectory, version, k))
  }

  /** The file name of a chunk is its index: reading the name back, without
      the directory and the `.npy` extension, gives the chunk the id is in. */
  lemma ChunkPathNamesChunk(chunks: seq<Chunk>, curieId: int, version: string, downloadsDirectory: string)
    requires ChunkIdOf(chunks, curieId).Ok?
    ensures var p := ChunkPathFromCurieId(chunks, curieId, version, downloadsDirectory).value;
            var dir := downloadsDirectory + "/" + version + "/";
            |dir| + 4 < |p| + 1 && p[..|dir|] == dir && p[|p| - 4..] == ".npy"
            && DecimalValue(p[|dir|..|p| - 4]) == ChunkIdOf(chunks, curieId).value
  {
    var k := ChunkIdOf(chunks, curieId).value;
    var dir := downloadsDirectory + "/" + version + "/";
    var p := ChunkFile(downloadsDirectory, version, k);
    assert p == dir + NatToDecimal(k) + ".npy";
    assert p[|dir|..|p| - 4] == NatToDecimal(k);
    DecimalRoundTrip(k);
  }

  /** Ids in different chunks are stored in different files. */
  lemma ChunkFileInjective(downloadsDirectory: string, version: string, k1: nat, k2: nat)
    requires ChunkFile(downloadsDirectory, version, k1) == ChunkFile(downloadsDirectory, version, k2)
    ensures k1 == k2
  {
    var dir := downloadsDirectory + "/" + version + "/";
    var p := ChunkFile(downloadsDirectory, version, k1);
    assert p == dir + NatToDecimal(k1) + ".npy" == dir + NatToDecimal(k2) + ".npy";
    assert p[|dir|..|p| - 4] == NatToDecimal(k1);
    assert p[|dir|..|p| - 4] == NatToDecimal(k2);
    DecimalRoundTrip(k1);
    DecimalRoundTrip(k2);
  }
}

/**
 * The in-memory chunk store of db.py: an ordered list of chunk texts kept
 * beside a nearest-neighbour index, where position i of the index names
 * the i-th stored chunk, and the filter that turns raw index hits into
 * chunk texts.
 */
module VectorDb {

  /** Width of every embedding the index is created for (db.py:17). */
  const Dimension: nat := 1536

  /** One embedding as handed to `add_to_db`. */
  type Vector = seq<real>

  /** One raw hit of the nearest-neighbour search: an index position (the
      index pads a short answer with -1) and the distance of that vector. */
  datatype Hit = Hit(idx: int, dist: real)

  /** The exceptions the store's operations can raise. */
  datatype DbError =
    | NoIndex         // the module-level index is still None
    | BadBatch        // numpy or the index refused the batch of vectors
    | ListIndexError  // a list subscript outside -len .. len-1

  datatype Result<T> = Ok(value: T) | Err(error: DbError)

  /** What `save_db` last wrote to disk. */
  datatype Disk = Unsaved | Saved(chunks: seq<string>, count: nat)

  // ---------------------------------------------------------------------
  // The batch checks that `add_to_db` goes through before anything changes
  // ---------------------------------------------------------------------

  /** Rows of different lengths: numpy cannot build a matrix from them. */
  predicate Ragged(vectors: seq<Vector>) {
    exists i, j :: 0 <= i < |vectors| && 0 <= j < |vectors| && |vectors[i]| != |vectors[j]|
  }

  /** A batch the index accepts: an n x Dimension matrix with n >= 1 (numpy
      turns an empty list into a one-dimensional array, which the index's
      shape check refuses). */
  predicate IsBatch(vectors: seq<Vector>) {
    |vectors| > 0 && forall i :: 0 <= i < |vectors| ==> |vectors[i]| == Dimension
  }

  // ---------------------------------------------------------------------
  // The hit filter of `search_db`
  // ---------------------------------------------------------------------

  /** What one hit does to the result list in the loop body of `search_db`. */
  datatype Visit = Skip | Take(text: string) | Raise

  /** One iteration of the loop: the sentinel and positions past the end are
      skipped, a hit at or above the threshold is rejected, and an accepted
      position is read with Python's list subscript, where a negative
      position counts from the end and one below -len raises. */
  function VisitHit(chunks: seq<string>, h: Hit, threshold: real): Visit {
    if h.idx == -1 || h.idx >= |chunks| then Skip
    else if h.dist < threshold then
      if 0 <= h.idx then Take(chunks[h.idx])
      else if -|chunks| <= h.idx then Take(chunks[|chunks| + h.idx])
      else Raise
    else Skip
  }

  /** The outcome of running the loop of `search_db` over `hits`, one hit at
      a time in the order the index returned them. */
  function Select(chunks: seq<string>, hits: seq<Hit>, threshold: real): Result<seq<string>>
    decreases |hits|
  {
    if hits == [] then Ok([])
    else
      var prefix := Select(chunks, hits[..|hits| - 1], threshold);
      match prefix
      case Err(_) => prefix
      case Ok(found) =>
        match VisitHit(chunks, hits[|hits| - 1], threshold)
        case Skip => prefix
        case Take(text) => Ok(found + [text])
        case Raise => Err(ListIndexError)
  }

  /** What the nearest-neighbour index returns: positions are never below
      the -1 sentinel. */
  predicate FromIndex(hits: seq<Hit>) {
    forall i :: 0 <= i < |hits| ==> -1 <= hits[i].idx
  }

  /** A hit that names a stored chunk and is close enough. */
  predicate Accepted(n: nat, h: Hit, threshold: real) {
    0 <= h.idx < n && h.dist < threshold
  }

  /** A hit the loop passes over: the sentinel, a position past the end, or
      a distance at or above the threshold. */
  predicate Ignored(n: nat, h: Hit, threshold: real) {
    h.idx == -1 || h.idx >= n || threshold <= h.dist
  }

  /** A hit whose subscript raises: accepted by both guards but below -n. */
  predicate Raises(n: nat, h: Hit, threshold: real) {
    h.idx != -1 && h.idx + n < 0 && h.dist < threshold
  }

  /** The positions in `hits` of the accepted hits, in increasing order. */
  function Kept(n: nat, hits: seq<Hit>, threshold: real): seq<nat>
    decreases |hits|
  {
    if hits == [] then []
    else
      Kept(n, hits[..|hits| - 1], threshold)
      + (if Accepted(n, hits[|hits| - 1], threshold) then [|hits| - 1] else [])
  }

  /** `Kept` enumerates exactly the accepted hits, without repetition and in
      the order the index returned them. */
  lemma {:induction false} KeptEnumerates(n: nat, hits: seq<Hit>, threshold: real)
    ensures var ps := Kept(n, hits, threshold);
      |ps| <= |hits|
      && (forall j :: 0 <= j < |ps| ==> ps[j] < |hits|)
      && (forall j, k :: 0 <= j < k < |ps| ==> ps[j] < ps[k])
      && (forall i :: 0 <= i < |hits| ==> (i in ps <==> Accepted(n, hits[i], threshold)))
    decreases |hits|
  {
    if hits != [] {
      var last := |hits| - 1;
      var prefix := hits[..last];
      KeptEnumerates(n, prefix, threshold);
      var ps := Kept(n, hits, threshold);
      var qs := Kept(n, prefix, threshold);
      assert ps == qs + (if Accepted(n, hits[last], threshold) then [last] else []);
      forall i | 0 <= i < |hits|
        ensures i in ps <==> Accepted(n, hits[i], threshold)
      {
        if i < last {
          assert prefix[i] == hits[i];
          assert i in ps <==> i in qs;
        }
      }
    }
  }

  /** Once the loop has raised on a prefix, the whole search raises. */
  lemma {:induction false} SelectErrorPersists(chunks: seq<string>, hits: seq<Hit>, k: nat, threshold: real)
    requires k <= |hits|
    requires Select(chunks, hits[..k], threshold).Err?
    ensures Select(chunks, hits, threshold) == Err(ListIndexError)
    decreases |hits| - k
  {
    if k == |hits| {
      assert hits[..k] == hits;
      SelectOnlyRaisesListIndexError(chunks, hits, threshold);
    } else {
      var prefix := hits[..|hits| - 1];
      assert prefix[..k] == hits[..k];
      SelectErrorPersists(chunks, prefix, k, threshold);
    }
  }

  /** The only exception the loop itself raises is the list subscript's. */
  lemma {:induction false} SelectOnlyRaisesListIndexError(chunks: seq<string>, hits: seq<Hit>, threshold: real)
    ensures Select(chunks, hits, threshold).Err? ==> Select(chunks, hits, threshold).error == ListIndexError
    decreases |hits|
  {
    if hits != [] {
      SelectOnlyRaisesListIndexError(chunks, hits[..|hits| - 1], threshold);
    }
  }

  /** The search raises exactly when some hit passes both guards with a
      position below -len (a value the index itself never returns). */
  lemma {:induction false} SelectRaisesIff(chunks: seq<string>, hits: seq<Hit>, threshold: real)
    ensures Select(chunks, hits, threshold).Err?
      <==> exists i :: 0 <= i < |hits| && Raises(|chunks|, hits[i], threshold)
    decreases |hits|
  {
    if hits != [] {
      var last := |hits| - 1;
      var prefix := hits[..last];
      SelectRaisesIff(chunks, prefix, threshold);
      if exists i :: 0 <= i < last && Raises(|chunks|, prefix[i], threshold) {
        var i :| 0 <= i < last && Raises(|chunks|, prefix[i], threshold);
        assert hits[i] == prefix[i];
      }
      if exists i :: 0 <= i < |hits| && Raises(|chunks|, hits[i], threshold) {
        var i :| 0 <= i < |hits| && Raises(|chunks|, hits[i], threshold);
        if i < last {
          assert Raises(|chunks|, prefix[i], threshold);
        }
      }
    }
  }

  /** On hits the index can return, the search never raises, and its result
      is the chunk text of every accepted hit, in hit order: the j-th result
      is the chunk at the position named by the j-th accepted hit. So every
      result is `chunks[idx]` for a hit with `0 <= idx < |chunks|` and
      `dist < threshold`, and there are never more results than hits. */
  lemma {:induction false} SelectMatchesKept(chunks: seq<string>, hits: seq<Hit>, threshold: real)
    requires FromIndex(hits)
    ensures Select(chunks, hits, threshold).Ok?
    ensures var r := Select(chunks, hits, threshold).value;
      var ps := Kept(|chunks|, hits, threshold);
      |r| == |ps| && |r| <= |hits|
      && forall j :: 0 <= j < |r| ==>
           ps[j] < |hits| && 0 <= hits[ps[j]].idx < |chunks| && hits[ps[j]].dist < threshold
           && r[j] == chunks[hits[ps[j]].idx]
    decreases |hits|
  {
    KeptEnumerates(|chunks|, hits, threshold);
    if hits != [] {
      var last := |hits| - 1;
      var prefix := hits[..last];
      assert FromIndex(prefix) by {
        forall i | 0 <= i < |prefix| ensures -1 <= prefix[i].idx {
          assert prefix[i] == hits[i];
        }
      }
      SelectMatchesKept(chunks, prefix, threshold);
      var qs := Kept(|chunks|, prefix, threshold);
      var found := Select(chunks, prefix, threshold).value;
      var h := hits[last];
      assert -1 <= h.idx;
      if Accepted(|chunks|, h, threshold) {
        assert VisitHit(chunks, h, threshold) == Take(chunks[h.idx]);
        assert Select(chunks, hits, threshold) == Ok(found + [chunks[h.idx]]);
        assert Kept(|chunks|, hits, threshold) == qs + [last];
      } else {
        assert VisitHit(chunks, h, threshold) == Skip;
        assert Select(chunks, hits, threshold) == Ok(found);
        assert Kept(|chunks|, hits, threshold) == qs;
      }
    }
  }

  /** A skipped or rejected hit contributes nothing, wherever it occurs. */
  lemma {:induction false} IgnoredHitContributesNothing(
    chunks: seq<string>, before: seq<Hit>, h: Hit, after: seq<Hit>, threshold: real)
    requires Ignored(|chunks|, h, threshold)
    ensures Select(chunks, before + [h] + after, threshold) == Select(chunks, before + after, threshold)
    decreases |after|
  {
    if after == [] {
      assert (before + [h] + after)[..|before|] == before;
      assert before + after == before;
    } else {
      var rest := after[..|after| - 1];
      var with := before + [h] + after;
      var without := before + after;
      assert with[..|with| - 1] == before + [h] + rest;
      assert without[..|without| - 1] == before + rest;
      assert with[|with| - 1] == without[|without| - 1];
      IgnoredHitContributesNothing(chunks, before, h, rest, threshold);
    }
  }

  // ---------------------------------------------------------------------
  // The module-level state of db.py
  // ---------------------------------------------------------------------

  /** The globals `faiss_index` and `stored_chunks` of db.py. The index is
      seen only through its vector count `ntotal`. */
  class Store {
    /** `faiss_index` is not None. */
    var indexExists: bool
    /** `faiss_index.ntotal`, the number of vectors in the index. */
    var count: nat
    /** `stored_chunks`: position i names the i-th vector of the index. */
    var chunks: seq<string>
    /** What `save_db` last wrote. */
    var disk: Disk

    /** The vector count and the chunk list stay parallel. */
    ghost predicate Aligned()
      reads this
    {
      count == |chunks|
    }

    /** The state when db.py is imported: no index and no chunks. */
    constructor ()
      ensures !indexExists && count == 0 && chunks == [] && disk == Unsaved
      ensures Aligned()
    {
      indexExists := false;
      count := 0;
      chunks := [];
      disk := Unsaved;
    }

    /** `init_db` when nothing is on disk: a fresh, empty index and list. */
    method InitFresh()
      modifies this`indexExists, this`count, this`chunks
      ensures indexExists && count == 0 && chunks == []
      ensures Aligned()
    {
      indexExists := true;
      count := 0;
      chunks := [];
    }

    /** `save_db`: writes the index and the chunk list together. Its only
        caller, `add_to_db`, reaches it after the index has accepted a batch,
        so the index exists. */
    method Save()
      requires indexExists
      modifies this`disk
      ensures disk == Saved(chunks, count)
    {
      disk := Saved(chunks, count);
    }

    /** `add_to_db`: adds the vectors to the index, extends the chunk list
        and saves. Nothing changes when numpy or the index refuses the
        batch, or when there is no index yet. */
    method Add(newChunks: seq<string>, vectors: seq<Vector>) returns (r: Result<()>)
      modifies this`count, this`chunks, this`disk
      ensures Ragged(vectors) ==> r == Err(BadBatch)
      ensures !Ragged(vectors) && !indexExists ==> r == Err(NoIndex)
      ensures !Ragged(vectors) && indexExists && !IsBatch(vectors) ==> r == Err(BadBatch)
      ensures r.Ok? <==> indexExists && IsBatch(vectors)
      ensures r.Err? ==> count == old(count) && chunks == old(chunks) && disk == old(disk)
      ensures r.Ok? ==> count == old(count) + |vectors|
      ensures r.Ok? ==> chunks == old(chunks) + newChunks
      ensures r.Ok? ==> disk == Saved(chunks, count)
      ensures old(chunks) <= chunks
      ensures old(Aligned()) && r.Ok? ==> (Aligned() <==> |newChunks| == |vectors|)
    {
      if Ragged(vectors) {
        return Err(BadBatch);
      }
      if !indexExists {
        return Err(NoIndex);
      }
      if !IsBatch(vectors) {
        return Err(BadBatch);
      }
      count := count + |vectors|;
      chunks := chunks + newChunks;
      Save();
      r := Ok(());
    }

    /** `search_db` over the hits the index returned for the query (at most
        k of them). Reads the store and changes nothing. */
    method Search(hits: seq<Hit>, threshold: real) returns (r: Result<seq<string>>)
      ensures !indexExists ==> r == Err(NoIndex)
      ensures indexExists ==> r == Select(chunks, hits, threshold)
    {
      if !indexExists {
        return Err(NoIndex);
      }
      var results: seq<string> := [];
      for i := 0 to |hits|
        invariant Select(chunks, hits[..i], threshold) == Ok(results)
      {
        assert hits[..i + 1][..i] == hits[..i];
        var idx, dist := hits[i].idx, hits[i].dist;
        if idx == -1 || idx >= |chunks| {
          continue;
        }
        if dist < threshold {
          if 0 <= idx {
            results := results + [chunks[idx]];
          } else if -|chunks| <= idx {
            results := results + [chunks[|chunks| + idx]];
          } else {
            SelectErrorPersists(chunks, hits, i + 1, threshold);
            return Err(ListIndexError);
          }
        }
      }
      assert hits[..|hits|] == hits;
      r := Ok(results);
    }

    /** `get_stats`: the index's vector count, or 0 when there is no index. */
    method Stats() returns (totalDocuments: nat)
      ensures totalDocuments == (if indexExists then count else 0)
      ensures indexExists && Aligned() ==> totalDocuments == |chunks|
    {
      totalDocuments := if indexExists then count else 0;
    }
  }
}

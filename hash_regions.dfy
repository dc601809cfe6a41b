/** The agent's content hash: which bytes of a file are fed to the hasher,
    and the bounded retry around it.  The digest algorithm itself is not
    modelled; a `Digest` records the algorithm name and the exact byte
    sequence fed to it, which is all the digest depends on. */
module HashRegions {
  import opened Base

  /** 64 KiB, the size of each region of a partial hash. */
  const Region: nat := 65536
  /** The chunk size of a full hash. */
  const ChunkSize: nat := 4096
  const DefaultMaxFileSizeMb: nat := 50
  const DefaultMaxRetries: nat := 3

  datatype Digest = Digest(algorithm: string, fed: seq<bv8>)

  /** The result of `calculate_file_hash_with_retry`: a value, or the
      exception it lets escape (by its message). */
  datatype HashOutcome = Hashed(digest: Option<Digest>) | Raised(message: string)

  function Min(a: int, b: int): int { if a <= b then a else b }

  // ---------------------------------------------------------------------
  // What gets hashed, on values

  /** The largest size hashed in full: `max_file_size_mb * 1024 * 1024`. */
  function FullHashLimit(maxFileSizeMb: nat): nat { maxFileSizeMb * 1024 * 1024 }

  /** `_calculate_partial_hash`: the first 64 KiB (or less), then the last
      64 KiB when the file exceeds 128 KiB, then 64 KiB from the middle when
      it exceeds 256 KiB, in that order. */
  function PartialFed(data: seq<bv8>): (r: seq<bv8>)
    ensures var n := |data|;
      |r| == Min(Region, n) + (if n > 2 * Region then Region else 0) + (if n > 4 * Region then Region else 0)
    ensures r[..Min(Region, |data|)] == data[..Min(Region, |data|)]
  {
    var n := |data|;
    data[..Min(Region, n)]
      + (if n > 2 * Region then data[n - Region..] else [])
      + (if n > 4 * Region then data[n / 2..n / 2 + Region] else [])
  }

  /** The bytes `calculate_file_hash` feeds for a file with contents `data`. */
  function Fed(data: seq<bv8>, maxFileSizeMb: nat): seq<bv8>
  {
    if |data| > FullHashLimit(maxFileSizeMb) then PartialFed(data) else data
  }

  /** The positions `a`, `a + 1`, ..., `b - 1`. */
  function Positions(a: nat, b: nat): (r: seq<nat>)
    requires a <= b
  {
    seq(b - a, i requires 0 <= i < b - a => a + i)
  }

  /** The file positions a partial hash reads, in the order it feeds them:
      the head, then the tail above 128 KiB, then the middle above 256 KiB. */
  function PartialPositions(n: nat): seq<nat>
  {
    Positions(0, Min(Region, n))
      + (if n > 2 * Region then Positions(n - Region, n) else [])
      + (if n > 4 * Region then Positions(n / 2, n / 2 + Region) else [])
  }

  /** Above the full-hash limit, the bytes fed are the file's bytes at
      `PartialPositions`, each inside the file, and no position is read
      twice: the three regions lie inside the file and do not overlap. */
  lemma PartialRegionsDisjoint(data: seq<bv8>, maxFileSizeMb: nat)
    requires |data| > FullHashLimit(maxFileSizeMb)
    ensures var pos := PartialPositions(|data|);
      |pos| == |Fed(data, maxFileSizeMb)|
      && (forall k | 0 <= k < |pos| :: pos[k] < |data| && Fed(data, maxFileSizeMb)[k] == data[pos[k]])
      && (forall k, j | 0 <= k < j < |pos| :: pos[k] != pos[j])
  {
    var pos := PartialPositions(|data|);
    forall k | 0 <= k < |pos|
      ensures pos[k] < |data| && Fed(data, maxFileSizeMb)[k] == data[pos[k]]
    {
      PartialPositionAt(data, maxFileSizeMb, k);
    }
    forall k, j | 0 <= k < j < |pos|
      ensures pos[k] != pos[j]
    {
      PartialPositionAt(data, maxFileSizeMb, k);
      PartialPositionAt(data, maxFileSizeMb, j);
    }
  }

  /** Where the `k`-th byte of a partial hash comes from: the head region
      holds positions below 64 KiB, the tail region the last 64 KiB, and the
      middle region positions strictly between the two. */
  lemma PartialPositionAt(data: seq<bv8>, maxFileSizeMb: nat, k: nat)
    requires |data| > FullHashLimit(maxFileSizeMb) && k < |PartialPositions(|data|)|
    ensures var n := |data|;
      var pos := PartialPositions(n);
      var h := Min(Region, n);
      var t := if n > 2 * Region then Region else 0;
      && |pos| == |Fed(data, maxFileSizeMb)|
      && pos[k] < n && Fed(data, maxFileSizeMb)[k] == data[pos[k]]
      && (k < h ==> pos[k] == k)
      && (h <= k < h + t ==> pos[k] == n - Region + (k - h) && Region <= pos[k])
      && (h + t <= k ==> pos[k] == n / 2 + (k - h - t) && Region <= pos[k] < n - Region)
  {
    var n := |data|;
    var fed := Fed(data, maxFileSizeMb);
    var pos := PartialPositions(n);
    var h := Min(Region, n);
    var t := if n > 2 * Region then Region else 0;
    if k < h {
      assert pos[k] == Positions(0, h)[k];
    } else if k < h + t {
      assert pos[k] == Positions(n - Region, n)[k - h];
      assert fed[k] == data[n - Region..][k - h];
    } else {
      assert pos[k] == Positions(n / 2, n / 2 + Region)[k - h - t];
      assert fed[k] == data[n / 2..n / 2 + Region][k - h - t];
    }
  }

  /** A file over the full-hash limit but at most 128 KiB is hashed on its
      first 64 KiB alone: two such files that share those bytes and their
      size hash alike, whatever follows. */
  lemma PartialIgnoresTail(a: seq<bv8>, b: seq<bv8>, maxFileSizeMb: nat)
    requires |a| == |b| && FullHashLimit(maxFileSizeMb) < |a| <= 2 * Region
    requires a[..Min(Region, |a|)] == b[..Min(Region, |b|)]
    ensures Fed(a, maxFileSizeMb) == Fed(b, maxFileSizeMb)
  {
  }

  /** The partial hash depends only on the size and the three regions. */
  lemma {:induction false} PartialDependsOnRegions(a: seq<bv8>, b: seq<bv8>)
    requires |a| == |b|
    requires a[..Min(Region, |a|)] == b[..Min(Region, |b|)]
    requires |a| > 2 * Region ==> a[|a| - Region..] == b[|b| - Region..]
    requires |a| > 4 * Region ==> a[|a| / 2..|a| / 2 + Region] == b[|b| / 2..|b| / 2 + Region]
    ensures PartialFed(a) == PartialFed(b)
  {
  }

  /** Below the limit the whole file is fed, so any change of content
      changes what is fed. */
  lemma FullHashSeesEverything(a: seq<bv8>, b: seq<bv8>, maxFileSizeMb: nat)
    requires |a| <= FullHashLimit(maxFileSizeMb) && |b| <= FullHashLimit(maxFileSizeMb)
    ensures Fed(a, maxFileSizeMb) == Fed(b, maxFileSizeMb) <==> a == b
  {
  }

  // ---------------------------------------------------------------------
  // Files and the hasher

  /** An open binary file: its contents and the current offset, which a
      seek may place beyond the end. */
  class FileHandle {
    const data: seq<bv8>
    var pos: nat

    constructor(data: seq<bv8>)
      ensures this.data == data && pos == 0
    {
      this.data := data;
      pos := 0;
    }

    /** `f.read(n)`: up to `n` bytes from the offset, fewer at the end. */
    method Read(n: nat) returns (chunk: seq<bv8>)
      modifies this`pos
      ensures var start := Min(old(pos), |data|);
        chunk == data[start..Min(old(pos) + n, |data|)] && pos == start + |chunk|
      ensures old(pos) < |data| && n > 0 ==> chunk != []
      ensures |chunk| <= n
    {
      var start := Min(pos, |data|);
      chunk := data[start..Min(pos + n, |data|)];
      pos := start + |chunk|;
    }

    /** `f.seek(offset)`. */
    method Seek(offset: nat)
      modifies this`pos
      ensures pos == offset
    {
      pos := offset;
    }

    /** `f.seek(offset, 2)` with a non-positive offset that stays inside the
        file (Python rejects one that does not). */
    method SeekFromEnd(offset: int)
      requires -|data| <= offset <= 0
      modifies this`pos
      ensures pos == |data| + offset
    {
      pos := |data| + offset;
    }
  }

  /** A `hashlib` object, seen through the bytes it was fed. */
  class Hasher {
    const algorithm: string
    var fed: seq<bv8>

    constructor(algorithm: string)
      ensures this.algorithm == algorithm && fed == []
    {
      this.algorithm := algorithm;
      fed := [];
    }

    method Update(chunk: seq<bv8>)
      modifies this
      ensures fed == old(fed) + chunk
    {
      fed := fed + chunk;
    }

    function HexDigest(): (d: Digest)
      reads this
      ensures d.algorithm == algorithm && d.fed == fed
    {
      Digest(algorithm, fed)
    }
  }

  // ---------------------------------------------------------------------
  // The calculator

  /** Whether an exception message makes `calculate_file_hash_with_retry`
      try again: it mentions `locked`, or `permission` in any case. */
  predicate Retryable(message: string)
  {
    Contains(message, "locked") || Contains(Lower(message), "permission")
  }

  /** The outcome of attempts `k`, `k+1`, ... when attempt `i` raises
      `failure(i)` (or succeeds when that is None). */
  function RetryFrom(k: nat, maxRetries: nat, failure: nat -> Option<string>, success: Option<Digest>)
    : (r: HashOutcome)
    decreases maxRetries - k
  {
    if k >= maxRetries then Hashed(None)
    else if failure(k).None? then Hashed(success)
    else if Retryable(failure(k).value) then RetryFrom(k + 1, maxRetries, failure, success)
    else Raised(failure(k).value)
  }

  /** How many attempts are made starting at `k`. */
  function AttemptsFrom(k: nat, maxRetries: nat, failure: nat -> Option<string>): (r: nat)
    ensures r <= maxRetries - k || (k >= maxRetries && r == 0)
    decreases maxRetries - k
  {
    if k >= maxRetries then 0
    else if failure(k).None? || !Retryable(failure(k).value) then 1
    else 1 + AttemptsFrom(k + 1, maxRetries, failure)
  }

  /** When every attempt raises a retryable error, the result is None. */
  lemma {:induction false} AllLockedGivesNone(k: nat, maxRetries: nat, failure: nat -> Option<string>,
                                              success: Option<Digest>)
    requires forall i | k <= i < maxRetries :: failure(i).Some? && Retryable(failure(i).value)
    ensures RetryFrom(k, maxRetries, failure, success) == Hashed(None)
    ensures AttemptsFrom(k, maxRetries, failure) == if k < maxRetries then maxRetries - k else 0
    decreases maxRetries - k
  {
    if k < maxRetries {
      AllLockedGivesNone(k + 1, maxRetries, failure, success);
    }
  }

  /** The first attempt that does not raise a retryable error decides:
      success gives the hash, any other error escapes. */
  lemma {:induction false} FirstDecisiveAttempt(k: nat, j: nat, maxRetries: nat,
                                                failure: nat -> Option<string>, success: Option<Digest>)
    requires k <= j < maxRetries
    requires forall i | k <= i < j :: failure(i).Some? && Retryable(failure(i).value)
    requires failure(j).None? || !Retryable(failure(j).value)
    ensures RetryFrom(k, maxRetries, failure, success)
      == if failure(j).None? then Hashed(success) else Raised(failure(j).value)
    ensures AttemptsFrom(k, maxRetries, failure) == j - k + 1
    decreases j - k
  {
    if k < j {
      FirstDecisiveAttempt(k + 1, j, maxRetries, failure, success);
    }
  }

  /** A result of Raised always carries a non-retryable message. */
  lemma {:induction false} RaisedIsNotRetryable(k: nat, maxRetries: nat, failure: nat -> Option<string>,
                                                success: Option<Digest>)
    ensures RetryFrom(k, maxRetries, failure, success).Raised? ==>
      !Retryable(RetryFrom(k, maxRetries, failure, success).message)
    decreases maxRetries - k
  {
    if k < maxRetries && failure(k).Some? && Retryable(failure(k).value) {
      RaisedIsNotRetryable(k + 1, maxRetries, failure, success);
    }
  }

  class HashCalculator {
    /** `config['max_file_size_mb']` and `config['method']`. */
    const maxFileSizeMb: nat
    const algorithm: string

    constructor(maxFileSizeMb: nat, algorithm: string)
      ensures this.maxFileSizeMb == maxFileSizeMb && this.algorithm == algorithm
    {
      this.maxFileSizeMb := maxFileSizeMb;
      this.algorithm := algorithm;
    }

    /** `_calculate_full_hash`: 4096-byte reads until an empty one; every
        byte of the file is fed, once, in order. */
    method CalculateFullHash(f: FileHandle) returns (d: Digest)
      requires f.pos == 0
      modifies f
      ensures d == Digest(algorithm, f.data)
      ensures f.pos == |f.data|
    {
      var h := new Hasher(algorithm);
      while true
        invariant f.pos <= |f.data| && h.fed == f.data[..f.pos]
        decreases |f.data| - f.pos
      {
        ghost var before := f.pos;
        var chunk := f.Read(ChunkSize);
        if chunk == [] {
          break;
        }
        assert f.data[..f.pos] == f.data[..before] + chunk;
        h.Update(chunk);
      }
      assert f.data[..f.pos] == f.data;
      d := h.HexDigest();
    }

    /** `_calculate_partial_hash` on a file of `size` bytes, `size` being what
        `os.path.getsize` reported for the same contents. */
    method CalculatePartialHash(f: FileHandle, size: nat) returns (d: Digest)
      requires f.pos == 0 && size == |f.data|
      modifies f
      ensures d == Digest(algorithm, PartialFed(f.data))
    {
      var h := new Hasher(algorithm);
      var head := f.Read(Region);
      h.Update(head);
      if size > 2 * Region {
        f.SeekFromEnd(-(Region as int));
        var tail := f.Read(Region);
        h.Update(tail);
      }
      if size > 4 * Region {
        f.Seek(size / 2);
        var middle := f.Read(Region);
        h.Update(middle);
      }
      d := h.HexDigest();
    }

    /** `calculate_file_hash`: None for a missing file, before anything is
        opened; otherwise the full or the partial hash by size.  `file` is
        the file's contents, None when it does not exist. */
    method CalculateFileHash(file: Option<seq<bv8>>) returns (r: Option<Digest>)
      ensures file.None? ==> r.None?
      ensures file.Some? ==> r == Some(Digest(algorithm, Fed(file.value, maxFileSizeMb)))
    {
      if file.None? {
        return None;
      }
      var f := new FileHandle(file.value);
      var size := |file.value|;
      var d;
      if size > FullHashLimit(maxFileSizeMb) {
        d := CalculatePartialHash(f, size);
      } else {
        d := CalculateFullHash(f);
      }
      r := Some(d);
    }

    /** `calculate_file_hash_with_retry`: attempt `i` raises `failure(i)`
        when that is given; a retryable error moves on to the next attempt,
        any other escapes, and running out of attempts gives None.  The
        pause between attempts is not modelled. */
    method CalculateFileHashWithRetry(file: Option<seq<bv8>>, maxRetries: nat, failure: nat -> Option<string>)
      returns (r: HashOutcome, attempts: nat)
      ensures r == RetryFrom(0, maxRetries, failure,
                             if file.None? then None else Some(Digest(algorithm, Fed(file.value, maxFileSizeMb))))
      ensures attempts == AttemptsFrom(0, maxRetries, failure) && attempts <= maxRetries
    {
      ghost var success := if file.None? then None else Some(Digest(algorithm, Fed(file.value, maxFileSizeMb)));
      var attempt := 0;
      while attempt < maxRetries
        invariant attempt <= maxRetries
        invariant RetryFrom(0, maxRetries, failure, success) == RetryFrom(attempt, maxRetries, failure, success)
        invariant AttemptsFrom(0, maxRetries, failure) == attempt + AttemptsFrom(attempt, maxRetries, failure)
      {
        var error := failure(attempt);
        if error.None? {
          var h := CalculateFileHash(file);
          return Hashed(h), attempt + 1;
        }
        if !Retryable(error.value) {
          return Raised(error.value), attempt + 1;
        }
        attempt := attempt + 1;
      }
      return Hashed(None), attempt;
    }
  }
}

/** pkg/kf/sourcepackages/client.go produces a source package's bytes, size and checksum;
    pkg/sourceimage/uploader.go receives bytes and publishes them only if they agree. The
    hash is a parameter: any function of the bytes. */
module SourceUpload {
  import opened Common

  const SHA256 := "sha256"
  const TWO_63 := 0x8000_0000_0000_0000
  const TWO_64 := 0x1_0000_0000_0000_0000

  type Hash = seq<int> -> string

  /** `size` is a uint64. */
  datatype Spec = Spec(size: nat, checksumType: string, checksum: string)

  datatype Package = Package(uid: string, spec: Spec, final: bool)

  /** A request body: its bytes, and whether reading on after them fails. */
  datatype Body = Body(bytes: seq<int>, broken: bool)

  /** Whether a temporary file can be created, and how many bytes fit if there is a limit. */
  datatype Disk = Disk(tempFile: bool, room: Option<nat>)

  predicate Fits(disk: Disk, size: nat)
  {
    disk.room.None? || size <= disk.room.value
  }

  datatype Saved = Saved(file: seq<int>) | NoTempFile | UnknownChecksum | CopyFailed | WrongSize | WrongChecksum

  function Int64(u: nat): (i: int)
  {
    if u < TWO_63 then u else u - TWO_64
  }

  /** How many bytes there are to copy. */
  function CopySize(body: Body, limit: int): (n: nat)
    ensures n <= |body.bytes|
  {
    if limit < 0 then 0 else if limit < |body.bytes| then limit else |body.bytes|
  }

  /** io.CopyN of a tee: file and hasher see the same bytes, never more than `limit`, unless
      the disk is full. */
  method CopyTee(body: Body, limit: int, disk: Disk, chunks: nat -> nat)
    returns (file: seq<int>, hashed: seq<int>, failed: bool)
    requires forall k :: 0 < chunks(k)
    ensures file <= body.bytes[..CopySize(body, limit)]
    ensures failed <==> !Fits(disk, CopySize(body, limit)) || (|body.bytes| < limit && body.broken)
    ensures !failed ==> file == hashed == body.bytes[..CopySize(body, limit)]
  {
    file, hashed := [], [];
    var k := 0;
    while |file| < limit && |file| < |body.bytes|
      invariant file == hashed && |file| <= |body.bytes| && file == body.bytes[..|file|]
      invariant |file| <= CopySize(body, limit) && Fits(disk, |file|)
      decreases |body.bytes| - |file|
    {
      var n := chunks(k);
      if n > limit - |file| { n := limit - |file|; }
      if n > |body.bytes| - |file| { n := |body.bytes| - |file|; }
      var chunk := body.bytes[|file|..|file| + n];
      hashed := hashed + chunk;
      if !Fits(disk, |file| + n) {
        file := file + chunk[..disk.room.value - |file|];
        return file, hashed, true;
      }
      file := file + chunk;
      k := k + 1;
    }
    failed := |file| < limit && body.broken;
  }

  /** What the server accepts. */
  predicate Verifies(hash: Hash, spec: Spec, body: Body)
  {
    && spec.checksumType == SHA256
    && spec.size < TWO_63
    && spec.size <= |body.bytes|
    && hash(body.bytes[..spec.size]) == spec.checksum
  }

  /** A pending package whose recorded size and checksum the body meets. */
  predicate Publishable(hash: Hash, package: Package, body: Body)
  {
    !package.final && Verifies(hash, package.spec, body)
  }

  method SaveAndVerify(hash: Hash, spec: Spec, body: Body, disk: Disk, chunks: nat -> nat) returns (r: Saved)
    requires spec.size < TWO_64 && forall k :: 0 < chunks(k)
    ensures r.Saved? <==> Verifies(hash, spec, body) && disk.tempFile && Fits(disk, spec.size)
    ensures r.Saved? ==> r.file == body.bytes[..spec.size]
    ensures r.NoTempFile? <==> !disk.tempFile
    ensures r.UnknownChecksum? <==> disk.tempFile && spec.checksumType != SHA256
    ensures r.WrongChecksum? ==> spec.size <= |body.bytes| && hash(body.bytes[..spec.size]) != spec.checksum
  {
    if !disk.tempFile {
      return NoTempFile;
    }
    if spec.checksumType != SHA256 {
      return UnknownChecksum;
    }
    var file, hashed, failed := CopyTee(body, Int64(spec.size), disk, chunks);
    if failed {
      return CopyFailed;
    }
    if |file| != spec.size {
      return WrongSize;
    }
    if hash(hashed) != spec.checksum {
      return WrongChecksum;
    }
    r := Saved(file);
  }

  datatype Outcome =
    | Published
    | NoSpace
    | NoPackage
    | NotPending
    | Rejected
    | PushFailed
    | StatusFailed
    | Panicked

  function Pow2(n: nat): (r: nat)
    ensures r >= 1
  {
    if n == 0 then 1 else 2 * Pow2(n - 1)
  }

  /** The lister may not have seen the package yet: `lookups(i)` is what the i-th Get finds.
      `pushed` is what was handed to the registry, if anything was. With a negative number of
      retries the loop never runs and the nil package is dereferenced. */
  method Upload(hash: Hash, hasSpace: bool, lookups: nat -> Option<Package>, maxRetries: int, body: Body,
                disk: Disk, chunks: nat -> nat, pushOk: bool, statusOk: bool)
    returns (r: Outcome, gets: nat, sleptMillis: nat, pushed: Option<seq<int>>)
    requires forall i :: lookups(i).Some? ==> lookups(i).value.spec.size < TWO_64
    requires forall k :: 0 < chunks(k)
    ensures gets <= if maxRetries < 0 then 0 else maxRetries + 1
    ensures sleptMillis == if gets == 0 then 0 else 10 * (Pow2(gets - 1) - 1)
    ensures gets == 0 <==> !hasSpace || maxRetries < 0
    ensures forall i :: 0 <= i < gets - 1 ==> lookups(i).None?
    ensures gets > 0 ==> gets == maxRetries + 1 || lookups(gets - 1).Some?
    ensures r.NoSpace? <==> !hasSpace
    ensures r.NoPackage? <==> hasSpace && maxRetries >= 0 && forall i :: 0 <= i <= maxRetries ==> lookups(i).None?
    ensures r.Panicked? <==> hasSpace && maxRetries < 0
    ensures pushed.Some? <==>
              && gets > 0 && lookups(gets - 1).Some?
              && Publishable(hash, lookups(gets - 1).value, body)
              && disk.tempFile && Fits(disk, lookups(gets - 1).value.spec.size)
    ensures pushed.Some? ==> pushed.value == body.bytes[..lookups(gets - 1).value.spec.size]
    ensures r.NotPending? <==> gets > 0 && lookups(gets - 1).Some? && lookups(gets - 1).value.final
    ensures r.Published? <==> pushed.Some? && pushOk && statusOk
    ensures r.PushFailed? <==> pushed.Some? && !pushOk
    ensures r.StatusFailed? <==> pushed.Some? && pushOk && !statusOk
    ensures r.Rejected? <==> gets > 0 && lookups(gets - 1).Some? && !lookups(gets - 1).value.final && pushed.None?
  {
    gets, sleptMillis, pushed := 0, 0, None;
    if !hasSpace {
      return NoSpace, gets, sleptMillis, pushed;
    }
    var package: Option<Package> := None;
    var sleepDuration := 10;
    var i := 0;
    while i <= maxRetries
      invariant 0 <= i && gets == i && package.None?
      invariant forall k :: 0 <= k < i ==> lookups(k).None?
      invariant sleepDuration == 10 * Pow2(i) && sleptMillis == 10 * (Pow2(i) - 1)
      invariant if maxRetries < 0 then i == 0 else i <= maxRetries
    {
      gets := gets + 1;
      package := lookups(i);
      if package.Some? {
        break;
      } else {
        if i == maxRetries {
          return NoPackage, gets, sleptMillis, pushed;
        } else {
          sleptMillis := sleptMillis + sleepDuration;
          sleepDuration := sleepDuration * 2;
        }
      }
      i := i + 1;
    }
    if package.None? {
      return Panicked, gets, sleptMillis, pushed;
    }
    if package.value.final {
      return NotPending, gets, sleptMillis, pushed;
    }
    var saved := SaveAndVerify(hash, package.value.spec, body, disk, chunks);
    if !saved.Saved? {
      return Rejected, gets, sleptMillis, pushed;
    }
    pushed := Some(saved.file);
    r := if !pushOk then PushFailed else if !statusOk then StatusFailed else Published;
  }

  /** The client: every write of the tar goes to the file and into the running hash. */
  method PackageSourcePath(hash: Hash, writes: seq<seq<int>>) returns (file: seq<int>, checksum: string)
    ensures file == Flatten(writes) && checksum == hash(file)
  {
    var hashed := [];
    file := [];
    for i := 0 to |writes|
      invariant hashed == file == Flatten(writes[..i])
    {
      assert writes[..i + 1][..i] == writes[..i];
      hashed := hashed + writes[i];
      file := file + writes[i];
    }
    assert writes[..|writes|] == writes;
    checksum := hash(hashed);
  }

  function SpecOf(hash: Hash, file: seq<int>): (s: Spec)
  {
    Spec(|file|, SHA256, hash(file))
  }

  /** Agreement: a file that the client packaged passes the server's check with the size and
      checksum the client recorded, even when more bytes follow, and only it does so unless
      the hash collides. */
  lemma PackagedVerifies(hash: Hash, file: seq<int>, body: Body)
    requires |file| < TWO_63
    ensures file <= body.bytes ==> Verifies(hash, SpecOf(hash, file), body)
    ensures Verifies(hash, SpecOf(hash, file), body) && !(file <= body.bytes) ==>
              exists other :: other != file && |other| == |file| && hash(other) == hash(file)
  {
    if file <= body.bytes {
      assert body.bytes[..|file|] == file;
    } else if Verifies(hash, SpecOf(hash, file), body) {
      var other := body.bytes[..|file|];
      assert other != file && |other| == |file| && hash(other) == hash(file);
    }
  }

  /** The first lookup that finds the package, within the allowed retries, finds it pending. */
  ghost predicate FoundPending(seen: nat -> Option<bool>, maxRetries: int)
  {
    exists i: nat :: i <= maxRetries && seen(i) == Some(false) && forall k: nat :: k < i ==> seen(k).None?
  }

  /** The client and the server together: package, record size and checksum, send. `seen(i)` is
      whether the server's i-th lookup finds the recorded package, and whether it is final by
      then; `received` is what arrives of the request. */
  method UploadSourcePath(hash: Hash, writes: seq<seq<int>>, createOk: bool, received: Body, hasSpace: bool,
                          seen: nat -> Option<bool>, maxRetries: int, disk: Disk, chunks: nat -> nat, pushOk: bool,
                          statusOk: bool)
    returns (ok: bool, pushed: Option<seq<int>>)
    requires Total(writes) < TWO_63 && forall k :: 0 < chunks(k)
    ensures ok <==> pushed.Some? && pushOk && statusOk
    ensures pushed.Some? ==> |pushed.value| == Total(writes) && hash(pushed.value) == hash(Flatten(writes))
    ensures Flatten(writes) <= received.bytes && pushed.Some? ==> pushed.value == Flatten(writes)
    ensures Flatten(writes) <= received.bytes ==>
              (pushed.Some? <==> createOk && hasSpace && FoundPending(seen, maxRetries)
                                 && disk.tempFile && Fits(disk, Total(writes)))
  {
    var file, checksum := PackageSourcePath(hash, writes);
    if !createOk {
      return false, None;
    }
    var spec := Spec(|file|, SHA256, checksum);
    var lookups := (i: nat) => if seen(i).Some? then Some(Package("", spec, seen(i).value)) else None;
    var r, gets, slept;
    r, gets, slept, pushed := Upload(hash, hasSpace, lookups, maxRetries, received, disk, chunks, pushOk, statusOk);
    ok := r.Published?;
    assert spec == SpecOf(hash, file);
    PackagedVerifies(hash, file, received);
    if file <= received.bytes {
      assert received.bytes[..|file|] == file;
    }
    if gets > 0 {
      forall k: nat | k < gets - 1 ensures seen(k).None? {
        assert lookups(k).None?;
      }
      FirstFound(seen, maxRetries, gets);
    }
  }

  lemma FirstFound(seen: nat -> Option<bool>, maxRetries: int, gets: nat)
    requires 0 < gets <= maxRetries + 1 && forall k: nat :: k < gets - 1 ==> seen(k).None?
    requires gets == maxRetries + 1 || seen(gets - 1).Some?
    ensures FoundPending(seen, maxRetries) <==> seen(gets - 1) == Some(false)
  {
    if FoundPending(seen, maxRetries) {
      var i: nat :| i <= maxRetries && seen(i) == Some(false) && forall k: nat :: k < i ==> seen(k).None?;
      assert i == gets - 1;
    }
  }

  lemma {:induction false} Pow2Monotone(m: nat, n: nat)
    requires m <= n
    ensures Pow2(m) <= Pow2(n)
  {
    if m < n { Pow2Monotone(m, n - 1); }
  }

  /** With n retries allowed, an upload sleeps at most 10ms * (2^n - 1) in all. */
  lemma SleepBound(gets: nat, maxRetries: nat)
    requires 0 < gets <= maxRetries + 1
    ensures 10 * (Pow2(gets - 1) - 1) <= 10 * (Pow2(maxRetries) - 1)
  {
    Pow2Monotone(gets - 1, maxRetries);
  }
}

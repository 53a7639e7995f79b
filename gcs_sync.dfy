/** protocol/gcs_sync.py: pulling the protocol file from a Google Cloud
    Storage bucket and pushing it back, each with a bounded number of
    connection attempts.  The network is the parameter `connects`: whether
    attempt `i` reaches the storage service. */
module GcsSync {
  import opened Values

  type Bytes = seq<bv8>

  /** The local protocol file: absent, or its contents. */
  class LocalFile {
    var contents: Option<Bytes>

    constructor (initial: Option<Bytes>)
      ensures contents == initial
    {
      contents := initial;
    }
  }

  /** The bucket and the protocol blob in it. */
  class Bucket {
    var present: bool
    var blob: Option<Bytes>

    constructor (found: bool, initial: Option<Bytes>)
      ensures present == found && blob == initial
    {
      present := found;
      blob := initial;
    }
  }

  /** The number of attempts `range(tries)` makes. */
  function Attempts(tries: int): nat
  {
    if tries < 0 then 0 else tries
  }

  /** The first attempt, from `from` on, that reaches the service. */
  function FirstConnect(connects: nat -> bool, tries: int, from: nat): (r: Option<nat>)
    ensures r.Some? ==> from <= r.value < Attempts(tries) && connects(r.value)
                        && forall j :: from <= j < r.value ==> !connects(j)
    ensures r.None? <==> forall j :: from <= j < Attempts(tries) ==> !connects(j)
    decreases Attempts(tries) - from
  {
    if from >= Attempts(tries) then None
    else if connects(from) then Some(from)
    else FirstConnect(connects, tries, from + 1)
  }

  /** What a pull downloads: the blob, or NotFound (None) when the bucket
      or the blob is missing. */
  function RemoteFile(present: bool, blob: Option<Bytes>): Option<Bytes>
  {
    if present then blob else None
  }

  /** `get_gcloud_db`'s return value: 1 once an attempt reaches the
      service, whether or not the protocol is found there; 0 when none of
      the attempts does. */
  function PullStatus(connects: nat -> bool, tries: int): (r: int)
    ensures r in {0, 1}
    ensures r == 1 <==> exists i :: 0 <= i < Attempts(tries) && connects(i)
  {
    if FirstConnect(connects, tries, 0).Some? then 1 else 0
  }

  /** The local file after a pull: the remote file once an attempt
      connects (absent when there is none), absent after attempts that all
      fail (each failure removes the file), untouched without attempts. */
  function PulledFile(connects: nat -> bool, tries: int, remote: Option<Bytes>, local: Option<Bytes>): (r: Option<Bytes>)
    ensures Attempts(tries) > 0 ==> r == remote || r.None?
    ensures Attempts(tries) == 0 ==> r == local
  {
    if FirstConnect(connects, tries, 0).Some? then remote
    else if Attempts(tries) > 0 then None
    else local
  }

  /** `send_gcloud_db`'s return value: 1 once an attempt reaches an
      existing bucket with the local file present; otherwise every attempt
      raises and 0 is returned. */
  function PushStatus(connects: nat -> bool, tries: int, present: bool, local: Option<Bytes>): (r: int)
    ensures r in {0, 1}
    ensures r == 1 <==> present && local.Some? && exists i :: 0 <= i < Attempts(tries) && connects(i)
  {
    if present && local.Some? && FirstConnect(connects, tries, 0).Some? then 1 else 0
  }

  /** `get_gcloud_db(..., number_of_connect_tries)`: ImportError without
      the storage library, before any attempt. */
  method GetGcloudDb(local: LocalFile, bucket: Bucket, connects: nat -> bool, tries: int, hasLibrary: bool)
    returns (r: Result<int>)
    modifies local
    ensures !hasLibrary ==> r == Err(ImportError) && local.contents == old(local.contents)
    ensures hasLibrary ==> (r == Ok(PullStatus(connects, tries))
      && local.contents == PulledFile(connects, tries, RemoteFile(bucket.present, bucket.blob), old(local.contents)))
  {
    if !hasLibrary {
      return Err(ImportError);
    }
    var i := 0;
    while i < tries
      invariant 0 <= i <= Attempts(tries)
      invariant forall j :: 0 <= j < i ==> !connects(j)
      invariant i == 0 ==> local.contents == old(local.contents)
      invariant i > 0 ==> local.contents.None?
      decreases tries - i
    {
      if connects(i) {
        // Opening the file for writing creates it; NotFound then removes it.
        local.contents := RemoteFile(bucket.present, bucket.blob);
        assert FirstConnect(connects, tries, 0) == Some(i);
        return Ok(1);
      }
      local.contents := None;
      i := i + 1;
    }
    return Ok(0);
  }

  /** `send_gcloud_db(..., number_of_connect_tries)`: the local file is
      only read. */
  method SendGcloudDb(local: LocalFile, bucket: Bucket, connects: nat -> bool, tries: int, hasLibrary: bool)
    returns (r: Result<int>)
    modifies bucket
    ensures bucket.present == old(bucket.present)
    ensures !hasLibrary ==> r == Err(ImportError) && bucket.blob == old(bucket.blob)
    ensures hasLibrary ==> r == Ok(PushStatus(connects, tries, bucket.present, local.contents))
    ensures hasLibrary && r == Ok(1) ==> bucket.blob == local.contents
    ensures r != Ok(1) ==> bucket.blob == old(bucket.blob)
  {
    if !hasLibrary {
      return Err(ImportError);
    }
    var i := 0;
    while i < tries
      invariant 0 <= i <= Attempts(tries)
      invariant forall j :: 0 <= j < i ==> !connects(j) || !bucket.present || local.contents.None?
      invariant bucket.blob == old(bucket.blob) && bucket.present == old(bucket.present)
      decreases tries - i
    {
      if connects(i) && bucket.present && local.contents.Some? {
        bucket.blob := local.contents;
        assert FirstConnect(connects, tries, 0) == Some(i);
        return Ok(1);
      }
      i := i + 1;
    }
    if bucket.present && local.contents.Some? {
      assert FirstConnect(connects, tries, 0).None?;
    }
    return Ok(0);
  }

  /** A pull after a successful push brings back the file that was pushed. */
  lemma PushThenPull(push: nat -> bool, pushTries: int, pull: nat -> bool, pullTries: int,
                     present: bool, local: Option<Bytes>, stale: Option<Bytes>)
    requires PushStatus(push, pushTries, present, local) == 1
    requires PullStatus(pull, pullTries) == 1
    ensures PulledFile(pull, pullTries, RemoteFile(present, local), stale) == local
  {
  }

  /** A pull that makes attempts never leaves a stale local file behind: the
      file afterwards is the remote one or is gone. */
  lemma PullLeavesNoStaleFile(connects: nat -> bool, tries: int, present: bool, blob: Option<Bytes>, local: Option<Bytes>)
    requires tries > 0
    ensures var after := PulledFile(connects, tries, RemoteFile(present, blob), local);
      after.None? || (present && after == blob)
  {
  }
}

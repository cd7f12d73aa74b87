/** The slice of the object-store client the endpoints use: a bucket is a
    sequence of blobs; listing by name prefix keeps the bucket's order,
    lookup finds a blob by name, writing a blob replaces any blob of the same
    name, and deleting removes blobs. Signed URLs are opaque functions of the
    blob name wherever they appear. */
module Storage {
  import opened Wrappers
  import opened PyStr

  type Bytes = seq<bv8>

  /** A stored object: its full name, contents, creation time (already
      rendered as ISO 8601) and content type, if one was set. */
  datatype Blob = Blob(name: string, data: Bytes, timeCreated: string, contentType: Option<string>)

  /** `bucket.list_blobs(prefix=prefix)`: the blobs whose name starts with
      `prefix`, in bucket order. */
  function Listing(bucket: seq<Blob>, prefix: string): (r: seq<Blob>)
    ensures |r| <= |bucket|
    ensures forall i :: 0 <= i < |r| ==> r[i] in bucket && StartsWith(r[i].name, prefix)
    ensures forall i :: 0 <= i < |bucket| && StartsWith(bucket[i].name, prefix) ==> bucket[i] in r
    decreases |bucket|
  {
    if |bucket| == 0 then []
    else
      var rest := Listing(bucket[1..], prefix);
      assert forall i :: 1 <= i < |bucket| ==> bucket[i] == bucket[1..][i - 1];
      if StartsWith(bucket[0].name, prefix) then [bucket[0]] + rest else rest
  }

  /** The blobs whose name does not start with `prefix`, in bucket order. */
  function Unlisted(bucket: seq<Blob>, prefix: string): (r: seq<Blob>)
    ensures |r| <= |bucket|
    ensures forall i :: 0 <= i < |r| ==> r[i] in bucket && !StartsWith(r[i].name, prefix)
    ensures forall i :: 0 <= i < |bucket| && !StartsWith(bucket[i].name, prefix) ==> bucket[i] in r
    decreases |bucket|
  {
    if |bucket| == 0 then []
    else
      var rest := Unlisted(bucket[1..], prefix);
      assert forall i :: 1 <= i < |bucket| ==> bucket[i] == bucket[1..][i - 1];
      if StartsWith(bucket[0].name, prefix) then rest else [bucket[0]] + rest
  }

  /** Every blob is either listed under a prefix or not. */
  lemma {:induction false} ListingPartition(bucket: seq<Blob>, prefix: string)
    ensures |Listing(bucket, prefix)| + |Unlisted(bucket, prefix)| == |bucket|
    decreases |bucket|
  {
    if |bucket| > 0 {
      ListingPartition(bucket[1..], prefix);
    }
  }

  /** Listing distributes over concatenation. */
  lemma {:induction false} ListingAppend(a: seq<Blob>, b: seq<Blob>, prefix: string)
    ensures Listing(a + b, prefix) == Listing(a, prefix) + Listing(b, prefix)
    decreases |a|
  {
    if |a| == 0 {
      assert a + b == b;
    } else {
      assert (a + b)[1..] == a[1..] + b;
      ListingAppend(a[1..], b, prefix);
    }
  }

  /** Removing the blobs under one prefix leaves the listing under another
      prefix alone, when no blob name starts with both. */
  lemma {:induction false} UnlistedKeepsOthers(bucket: seq<Blob>, p: string, q: string)
    requires forall i :: 0 <= i < |bucket| ==> !(StartsWith(bucket[i].name, p) && StartsWith(bucket[i].name, q))
    ensures Listing(Unlisted(bucket, p), q) == Listing(bucket, q)
    ensures Listing(Unlisted(bucket, p), p) == []
    decreases |bucket|
  {
    if |bucket| > 0 {
      assert forall i :: 1 <= i < |bucket| ==> bucket[i] == bucket[1..][i - 1];
      UnlistedKeepsOthers(bucket[1..], p, q);
      if !StartsWith(bucket[0].name, p) {
        var r := Unlisted(bucket, p);
        assert r == [bucket[0]] + Unlisted(bucket[1..], p);
        assert r[1..] == Unlisted(bucket[1..], p);
      }
    }
  }

  /** `bucket.blob(name)` when it exists: the first blob of that name. */
  function Lookup(bucket: seq<Blob>, name: string): (r: Option<Blob>)
    ensures r.Some? ==> r.value in bucket && r.value.name == name
    ensures r.None? <==> forall i :: 0 <= i < |bucket| ==> bucket[i].name != name
    decreases |bucket|
  {
    if |bucket| == 0 then None
    else if bucket[0].name == name then Some(bucket[0])
    else
      assert forall i :: 1 <= i < |bucket| ==> bucket[i] == bucket[1..][i - 1];
      Lookup(bucket[1..], name)
  }

  /** The bucket without any blob called `name`. */
  function Without(bucket: seq<Blob>, name: string): (r: seq<Blob>)
    ensures |r| <= |bucket|
    ensures forall i :: 0 <= i < |r| ==> r[i] in bucket && r[i].name != name
    decreases |bucket|
  {
    if |bucket| == 0 then []
    else
      var rest := Without(bucket[1..], name);
      if bucket[0].name == name then rest else [bucket[0]] + rest
  }

  /** `blob.upload_from_string(...)`: the blob replaces any blob of the same name. */
  function Put(bucket: seq<Blob>, blob: Blob): (r: seq<Blob>)
    ensures blob in r
    ensures |r| <= |bucket| + 1
  {
    Without(bucket, blob.name) + [blob]
  }

  /** Dropping `name` leaves every other name's lookup unchanged. */
  lemma {:induction false} WithoutLookup(bucket: seq<Blob>, name: string, other: string)
    ensures Lookup(Without(bucket, name), name).None?
    ensures other != name ==> Lookup(Without(bucket, name), other) == Lookup(bucket, other)
    decreases |bucket|
  {
    if |bucket| > 0 {
      WithoutLookup(bucket[1..], name, other);
    }
  }

  /** Lookup in a concatenation tries the left part first. */
  lemma {:induction false} LookupAppend(a: seq<Blob>, b: seq<Blob>, name: string)
    ensures Lookup(a + b, name) == if Lookup(a, name).Some? then Lookup(a, name) else Lookup(b, name)
    decreases |a|
  {
    if |a| == 0 {
      assert a + b == b;
    } else {
      assert (a + b)[1..] == a[1..] + b;
      LookupAppend(a[1..], b, name);
    }
  }

  /** After a write, the written name yields the new blob and every other
      name yields what it yielded before. */
  lemma PutLookup(bucket: seq<Blob>, blob: Blob, other: string)
    ensures Lookup(Put(bucket, blob), blob.name) == Some(blob)
    ensures other != blob.name ==> Lookup(Put(bucket, blob), other) == Lookup(bucket, other)
  {
    WithoutLookup(bucket, blob.name, other);
    LookupAppend(Without(bucket, blob.name), [blob], blob.name);
    LookupAppend(Without(bucket, blob.name), [blob], other);
  }
}

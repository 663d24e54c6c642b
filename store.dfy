/**
  The object store: the key an archive is uploaded under, and the
  retention cleanup (`uploadToS3` / `cleanupOldBackups` in
  containers/truenas_backup, `upload` / `cleanup` in
  containers/truenas_backup_to_s3). The bucket is a map from key to
  last-modified time in seconds; its listing is a scripted sequence of
  pages, and which deletes fail is given as a set of keys.
*/
module Store {
  import opened Wrappers
  import opened GoStrings
  import opened Settings
  import Decimal

  /**
    The key an archive is stored under. containers/truenas_backup uses the
    bare filename when the prefix is empty; containers/truenas_backup_to_s3
    always joins with "/", so an empty prefix gives a leading "/".
  */
  function ObjectKey(v: Variant, prefix: string, filename: string): (key: string)
    ensures HasSuffix(key, filename)
    ensures HasPrefix(key, prefix)
    ensures HasPrefix(key, ListPrefix(v, prefix))
    ensures v.TrueNasBackup? && prefix == "" ==> key == filename
    ensures v.TrueNasBackupToS3? || prefix != "" ==> key == prefix + "/" + filename
  {
    if v.TrueNasBackup? && prefix == "" then filename else prefix + "/" + filename
  }

  /**
    The prefix cleanup lists under. containers/truenas_backup appends "/"
    only to a non-empty prefix that lacks one; containers/truenas_backup_to_s3
    always appends "/".
  */
  function ListPrefix(v: Variant, prefix: string): (p: string)
    ensures HasPrefix(p, prefix) && |p| <= |prefix| + 1
    ensures p == "" || HasSuffix(p, "/")
    ensures v.TrueNasBackup? && (prefix == "" || HasSuffix(prefix, "/")) ==> p == prefix
    ensures v.TrueNasBackupToS3? ==> p == prefix + "/"
  {
    if v.TrueNasBackup? then
      if prefix != "" && !HasSuffix(prefix, "/") then prefix + "/" else prefix
    else prefix + "/"
  }

  /** The calls the programs make on the store, in the order made. */
  datatype StoreRequest = PutObject(key: string) | ListObjects(prefix: string) | DeleteObject(key: string)

  /** One object of a listing page. */
  datatype Listed = Listed(key: string, lastModified: int)

  /** One page of the listing, or the error fetching it. */
  datatype Page = Page(objects: seq<Listed>) | PageFailed

  class Bucket {
    /** Stored objects: key to last-modified time in seconds. */
    var objects: map<string, int>
    /** What the listing will return, page by page. */
    var pages: seq<Page>
    /** Keys whose delete the store rejects. */
    var deleteFailures: set<string>
    /** Whether the store rejects uploads. */
    var putFails: bool
    /** Every call made on the store. */
    var requests: seq<StoreRequest>

    constructor (objects: map<string, int>, pages: seq<Page>, deleteFailures: set<string>, putFails: bool)
      ensures this.objects == objects && this.pages == pages
      ensures this.deleteFailures == deleteFailures && this.putFails == putFails
      ensures requests == []
    {
      this.objects := objects;
      this.pages := pages;
      this.deleteFailures := deleteFailures;
      this.putFails := putFails;
      requests := [];
    }

    /** `PutObject`: store the archive under `key`, stamped `time`. */
    method Put(key: string, time: int) returns (ok: bool)
      modifies this
      ensures ok == !putFails
      ensures requests == old(requests) + [PutObject(key)]
      ensures objects == if ok then old(objects)[key := time] else old(objects)
      ensures pages == old(pages) && deleteFailures == old(deleteFailures) && putFails == old(putFails)
    {
      ok := !putFails;
      requests := requests + [PutObject(key)];
      if ok {
        objects := objects[key := time];
      }
    }

    /** The paginator's `NextPage`, called only while pages remain. */
    method NextPage(prefix: string) returns (page: Page)
      requires pages != []
      modifies this
      ensures page == old(pages)[0] && pages == old(pages)[1..]
      ensures requests == old(requests) + [ListObjects(prefix)]
      ensures objects == old(objects) && deleteFailures == old(deleteFailures) && putFails == old(putFails)
    {
      page := pages[0];
      pages := pages[1..];
      requests := requests + [ListObjects(prefix)];
    }

    /** `DeleteObject`: remove `key` unless the store rejects it. */
    method Delete(key: string) returns (ok: bool)
      modifies this
      ensures ok == (key !in deleteFailures)
      ensures requests == old(requests) + [DeleteObject(key)]
      ensures objects == if ok then old(objects) - {key} else old(objects)
      ensures pages == old(pages) && deleteFailures == old(deleteFailures) && putFails == old(putFails)
    {
      ok := key !in deleteFailures;
      requests := requests + [DeleteObject(key)];
      if ok {
        objects := objects - {key};
      }
    }
  }

  datatype UploadError = PutRejected

  /**
    `uploadToS3` / `upload`: one `PutObject` under `ObjectKey`; on success
    the key is returned (containers/truenas_backup_to_s3 returns only the
    error).
  */
  method Upload(v: Variant, bucket: Bucket, prefix: string, filename: string, time: int)
    returns (r: Result<string, UploadError>)
    modifies bucket
    ensures bucket.requests == old(bucket.requests) + [PutObject(ObjectKey(v, prefix, filename))]
    ensures r.Success? <==> !bucket.putFails
    ensures r.Success? ==> r.value == ObjectKey(v, prefix, filename)
    ensures bucket.objects ==
      if r.Success? then old(bucket.objects)[ObjectKey(v, prefix, filename) := time] else old(bucket.objects)
    ensures bucket.pages == old(bucket.pages) && bucket.deleteFailures == old(bucket.deleteFailures)
    ensures bucket.putFails == old(bucket.putFails)
  {
    var key := ObjectKey(v, prefix, filename);
    var ok := bucket.Put(key, time);
    if !ok {
      return Failure(PutRejected);
    }
    r := Success(key);
  }

  /**
    The cleanup cutoff as intended: `days` UTC days, of 86400 seconds each,
    before `now`, so strictly before `now` for a positive retention. For a
    retention above about 1.07e14 days Go computes another instant; see
    `GoCutoff`.
  */
  function Cutoff(now: int, days: int): (c: int)
    ensures days > 0 ==> c < now
    ensures c + days * 86400 == now
  {
    now - days * 86400
  }

  /** Seconds from 0001-01-01 to 1970-01-01 UTC: Go's `time.Time` counts instants from year 1. */
  const UnixToInternal: int := 62135596800

  const TwoTo64: int := 0x1_0000_0000_0000_0000

  /** `x` in 64-bit two's-complement arithmetic: the value in the range of `int64` congruent to it. */
  function WrapInt64(x: int): (w: int)
    ensures Decimal.MinInt64 <= w <= Decimal.MaxInt64
    ensures (x - w) % TwoTo64 == 0
    ensures Decimal.MinInt64 <= x <= Decimal.MaxInt64 ==> w == x
  {
    (x - Decimal.MinInt64) % TwoTo64 + Decimal.MinInt64
  }

  /**
    `time.Now().UTC().AddDate(0, 0, -days)` as Go computes it: `time.Date`
    counts the new instant in seconds from year 1 with 64-bit arithmetic
    that wraps, and `Before` compares those counts.
  */
  function GoCutoff(now: int, days: int): (c: int)
    ensures (c - (now - days * 86400)) % TwoTo64 == 0
    ensures Decimal.MinInt64 <= c + UnixToInternal <= Decimal.MaxInt64
  {
    WrapInt64(now + UnixToInternal - days * 86400) - UnixToInternal
  }

  /** Where Go's count of seconds does not wrap, its cutoff is the intended one. */
  lemma GoCutoffAgrees(now: int, days: int)
    requires Decimal.MinInt64 <= now + UnixToInternal - days * 86400 <= Decimal.MaxInt64
    ensures GoCutoff(now, days) == Cutoff(now, days)
  {
  }

  /**
    The largest retention `Atoi` accepts wraps to a cutoff one day after
    `now`: Go expires an archive uploaded before `now`, which the intended
    cutoff keeps.
  */
  lemma GoCutoffWraps(now: int, key: string, uploaded: int)
    requires 0 <= now + UnixToInternal && now + UnixToInternal + 86400 <= Decimal.MaxInt64
    requires -UnixToInternal <= uploaded <= now
    ensures GoCutoff(now, Decimal.MaxInt64) == now + 86400
    ensures Expired([Listed(key, uploaded)], GoCutoff(now, Decimal.MaxInt64)) == [key]
    ensures Expired([Listed(key, uploaded)], Cutoff(now, Decimal.MaxInt64)) == []
  {
    var y := now + UnixToInternal + 86400 - Decimal.MinInt64;
    assert 0 <= y < TwoTo64;
    assert now + UnixToInternal - Decimal.MaxInt64 * 86400 - Decimal.MinInt64 == y - 43200 * TwoTo64;
    assert (y - 43200 * TwoTo64) % TwoTo64 == y;
    assert [Listed(key, uploaded)][..0] == [];
  }

  /** The keys of the objects last modified strictly before `cutoff`, in listing order. */
  function Expired(objs: seq<Listed>, cutoff: int): (keys: seq<string>)
    ensures |keys| <= |objs|
  {
    if objs == [] then []
    else
      var last := objs[|objs| - 1];
      Expired(objs[..|objs| - 1], cutoff) + if last.lastModified < cutoff then [last.key] else []
  }

  /** A key is in `Expired` exactly when some listed object with that key is older than the cutoff. */
  lemma {:induction false} ExpiredMembers(objs: seq<Listed>, cutoff: int, k: string)
    ensures k in Expired(objs, cutoff) <==> exists o :: o in objs && o.key == k && o.lastModified < cutoff
  {
    if objs != [] {
      var init := objs[..|objs| - 1];
      var last := objs[|objs| - 1];
      assert forall o :: o in objs <==> o in init || o == last;
      ExpiredMembers(init, cutoff, k);
    }
  }

  lemma {:induction false} ExpiredAppend(a: seq<Listed>, b: seq<Listed>, cutoff: int)
    ensures Expired(a + b, cutoff) == Expired(a, cutoff) + Expired(b, cutoff)
  {
    if b != [] {
      var init := b[..|b| - 1];
      assert (a + b)[..|a + b| - 1] == a + init;
      ExpiredAppend(a, init, cutoff);
    } else {
      assert a + b == a;
    }
  }

  function DeleteAll(keys: seq<string>): (reqs: seq<StoreRequest>)
    ensures |reqs| == |keys|
    ensures forall r :: r in reqs ==> r.DeleteObject?
  {
    if keys == [] then [] else DeleteAll(keys[..|keys| - 1]) + [DeleteObject(keys[|keys| - 1])]
  }

  /** The calls made for one page: the listing call, then one delete per expired object. */
  function PageTrace(prefix: string, page: Page, cutoff: int): seq<StoreRequest> {
    [ListObjects(prefix)] + if page.PageFailed? then [] else DeleteAll(Expired(page.objects, cutoff))
  }

  /** The objects of the pages read before the first failing one. */
  function ListedObjects(pages: seq<Page>): seq<Listed> {
    if pages == [] || pages[0].PageFailed? then [] else pages[0].objects + ListedObjects(pages[1..])
  }

  /**
    How many pages the paging loop reads: all of them, or those up to and
    including the first that fails.
  */
  function PagesRead(pages: seq<Page>): (n: nat)
    ensures n <= |pages|
    ensures PageFailed !in pages ==> n == |pages|
    ensures PageFailed in pages ==> 1 <= n && pages[n - 1] == PageFailed && PageFailed !in pages[..n - 1]
  {
    if pages == [] then 0
    else if pages[0].PageFailed? then 1
    else
      var n := 1 + PagesRead(pages[1..]);
      assert PageFailed in pages ==> pages[..n - 1] == [pages[0]] + pages[1..][..n - 2];
      n
  }

  lemma {:induction false} PagesReadAppend(done: seq<Page>, rest: seq<Page>)
    requires PageFailed !in done
    ensures PagesRead(done + rest) == |done| + PagesRead(rest)
  {
    if done != [] {
      assert (done + rest)[1..] == done[1..] + rest;
      PagesReadAppend(done[1..], rest);
    } else {
      assert done + rest == rest;
    }
  }

  /** The number of listing calls in `trace`. */
  function Listings(trace: seq<StoreRequest>): nat {
    if trace == [] then 0
    else Listings(trace[..|trace| - 1]) + if trace[|trace| - 1].ListObjects? then 1 else 0
  }

  lemma {:induction false} ListingsAppend(a: seq<StoreRequest>, b: seq<StoreRequest>)
    ensures Listings(a + b) == Listings(a) + Listings(b)
  {
    if b != [] {
      assert (a + b)[..|a + b| - 1] == a + b[..|b| - 1];
      ListingsAppend(a, b[..|b| - 1]);
    } else {
      assert a + b == a;
    }
  }

  lemma {:induction false} DeleteAllHasNoListing(keys: seq<string>)
    ensures Listings(DeleteAll(keys)) == 0
  {
    if keys != [] {
      var init := keys[..|keys| - 1];
      DeleteAllHasNoListing(init);
      assert DeleteAll(keys)[..|keys| - 1] == DeleteAll(init);
    }
  }

  /** A page that was read makes one listing call, and its deletes none. */
  lemma PageListings(prefix: string, keys: seq<string>, rest: seq<StoreRequest>)
    ensures Listings([ListObjects(prefix)] + DeleteAll(keys) + rest) == 1 + Listings(rest)
  {
    var listing := [ListObjects(prefix)];
    assert Listings(listing) == 1 by {
      assert listing[..0] == [];
    }
    ListingsAppend(listing + DeleteAll(keys), rest);
    ListingsAppend(listing, DeleteAll(keys));
    DeleteAllHasNoListing(keys);
  }

  /**
    The calls cleanup makes on the store: page by page, one listing call
    under the list prefix and then one delete for each object modified
    strictly before the cutoff, stopping after the first page that fails.
  */
  function CleanupTrace(prefix: string, pages: seq<Page>, cutoff: int): (t: seq<StoreRequest>)
    ensures pages != [] ==> |t| >= 1 && t[0] == ListObjects(prefix)
  {
    if pages == [] then []
    else if pages[0].PageFailed? then [ListObjects(prefix)]
    else [ListObjects(prefix)] + DeleteAll(Expired(pages[0].objects, cutoff)) + CleanupTrace(prefix, pages[1..], cutoff)
  }

  /**
    Cleanup makes one listing call under the list prefix for each page it
    reads, up to and including the first that fails, and otherwise only
    deletes.
  */
  lemma {:induction false} CleanupTraceCalls(prefix: string, pages: seq<Page>, cutoff: int)
    ensures Listings(CleanupTrace(prefix, pages, cutoff)) == PagesRead(pages)
    ensures forall r :: r in CleanupTrace(prefix, pages, cutoff) ==> r == ListObjects(prefix) || r.DeleteObject?
  {
    if pages != [] {
      if pages[0].PageFailed? {
        assert [ListObjects(prefix)][..0] == [];
      } else {
        CleanupTraceCalls(prefix, pages[1..], cutoff);
        PageListings(prefix, Expired(pages[0].objects, cutoff), CleanupTrace(prefix, pages[1..], cutoff));
      }
    }
  }

  lemma {:induction false} CleanupTraceAppend(prefix: string, a: seq<Page>, b: seq<Page>, cutoff: int)
    requires PageFailed !in a
    ensures CleanupTrace(prefix, a + b, cutoff) == CleanupTrace(prefix, a, cutoff) + CleanupTrace(prefix, b, cutoff)
  {
    if a != [] {
      assert (a + b)[1..] == a[1..] + b;
      CleanupTraceAppend(prefix, a[1..], b, cutoff);
    } else {
      assert a + b == b;
    }
  }

  /** The keys whose delete the store accepted. */
  function RemovedKeys(trace: seq<StoreRequest>, failures: set<string>): set<string> {
    set r | r in trace && r.DeleteObject? && r.key !in failures :: r.key
  }

  /** The bucket's objects after the calls of `trace`, request by request. */
  function AfterDeletes(m: map<string, int>, trace: seq<StoreRequest>, failures: set<string>): map<string, int> {
    if trace == [] then m
    else
      var r := trace[|trace| - 1];
      var before := AfterDeletes(m, trace[..|trace| - 1], failures);
      if r.DeleteObject? && r.key !in failures then before - {r.key} else before
  }

  /** Replaying the calls removes exactly the keys whose delete was accepted. */
  lemma {:induction false} AfterDeletesRemoves(m: map<string, int>, trace: seq<StoreRequest>, failures: set<string>)
    ensures AfterDeletes(m, trace, failures) == m - RemovedKeys(trace, failures)
  {
    if trace != [] {
      var init := trace[..|trace| - 1];
      AfterDeletesRemoves(m, init, failures);
      assert forall r :: r in trace <==> r in init || r == trace[|trace| - 1];
      assert RemovedKeys(trace, failures) == RemovedKeys(init, failures) +
        (if trace[|trace| - 1].DeleteObject? && trace[|trace| - 1].key !in failures then {trace[|trace| - 1].key} else {});
    }
  }

  lemma {:induction false} AfterDeletesAppend(m: map<string, int>, a: seq<StoreRequest>, b: seq<StoreRequest>, failures: set<string>)
    ensures AfterDeletes(m, a + b, failures) == AfterDeletes(AfterDeletes(m, a, failures), b, failures)
  {
    if b != [] {
      assert (a + b)[..|a + b| - 1] == a + b[..|b| - 1];
      AfterDeletesAppend(m, a, b[..|b| - 1], failures);
    } else {
      assert a + b == a;
    }
  }

  /**
    The number cleanup reports for its calls: containers/truenas_backup
    counts the deletes the store accepted, containers/truenas_backup_to_s3
    counts every delete it issued.
  */
  function DeletedCount(v: Variant, trace: seq<StoreRequest>, failures: set<string>): (n: nat)
    ensures n <= |trace|
  {
    if trace == [] then 0
    else
      var r := trace[|trace| - 1];
      var counted := r.DeleteObject? && (v.TrueNasBackupToS3? || r.key !in failures);
      DeletedCount(v, trace[..|trace| - 1], failures) + if counted then 1 else 0
  }

  lemma {:induction false} DeletedCountAppend(v: Variant, a: seq<StoreRequest>, b: seq<StoreRequest>, failures: set<string>)
    ensures DeletedCount(v, a + b, failures) == DeletedCount(v, a, failures) + DeletedCount(v, b, failures)
  {
    if b != [] {
      assert (a + b)[..|a + b| - 1] == a + b[..|b| - 1];
      DeletedCountAppend(v, a, b[..|b| - 1], failures);
    } else {
      assert a + b == a;
    }
  }

  /** The calls cleanup makes for one listed object: a delete when it is older than the cutoff. */
  function ObjectTrace(obj: Listed, cutoff: int): seq<StoreRequest> {
    if obj.lastModified < cutoff then [DeleteObject(obj.key)] else []
  }

  /** The body of the loop over a page's objects: delete an expired object and count it. */
  method PruneObject(v: Variant, bucket: Bucket, obj: Listed, cutoff: int) returns (counted: nat)
    modifies bucket
    ensures bucket.requests == old(bucket.requests) + ObjectTrace(obj, cutoff)
    ensures bucket.objects == AfterDeletes(old(bucket.objects), ObjectTrace(obj, cutoff), old(bucket.deleteFailures))
    ensures counted == DeletedCount(v, ObjectTrace(obj, cutoff), old(bucket.deleteFailures))
    ensures bucket.pages == old(bucket.pages) && bucket.deleteFailures == old(bucket.deleteFailures)
    ensures bucket.putFails == old(bucket.putFails)
  {
    counted := 0;
    if obj.lastModified < cutoff {
      var ok := bucket.Delete(obj.key);
      if v.TrueNasBackup? {
        // a failed delete is reported and skipped
        if ok {
          counted := 1;
        }
      } else {
        // the delete's error is ignored
        counted := 1;
      }
      assert ObjectTrace(obj, cutoff)[..0] == [];
    }
  }

  /** One more object extends the page's calls by that object's calls. */
  lemma ExpiredStep(objs: seq<Listed>, i: nat, cutoff: int)
    requires i < |objs|
    ensures DeleteAll(Expired(objs[..i + 1], cutoff)) == DeleteAll(Expired(objs[..i], cutoff)) + ObjectTrace(objs[i], cutoff)
  {
    assert objs[..i + 1][..i] == objs[..i];
    var e := Expired(objs[..i], cutoff);
    if objs[i].lastModified < cutoff {
      assert (e + [objs[i].key])[..|e|] == e;
    } else {
      assert e + [] == e;
      assert DeleteAll(e) + [] == DeleteAll(e);
    }
  }

  /** One more object of a page extends the page's calls, their replay and their count. */
  lemma ObjectStep(v: Variant, m: map<string, int>, objs: seq<Listed>, i: nat, cutoff: int, failures: set<string>)
    requires i < |objs|
    ensures
      var trace := DeleteAll(Expired(objs[..i], cutoff));
      var step := ObjectTrace(objs[i], cutoff);
      && DeleteAll(Expired(objs[..i + 1], cutoff)) == trace + step
      && AfterDeletes(m, trace + step, failures) == AfterDeletes(AfterDeletes(m, trace, failures), step, failures)
      && DeletedCount(v, trace + step, failures) == DeletedCount(v, trace, failures) + DeletedCount(v, step, failures)
  {
    var trace := DeleteAll(Expired(objs[..i], cutoff));
    var step := ObjectTrace(objs[i], cutoff);
    ExpiredStep(objs, i, cutoff);
    AfterDeletesAppend(m, trace, step, failures);
    DeletedCountAppend(v, trace, step, failures);
  }

  /**
    The inner loop of cleanup over one page: a delete for each object
    modified strictly before the cutoff, counted as `DeletedCount` says.
  */
  method PrunePage(v: Variant, bucket: Bucket, objs: seq<Listed>, cutoff: int) returns (n: nat)
    modifies bucket
    ensures
      var trace := DeleteAll(Expired(objs, cutoff));
      && bucket.requests == old(bucket.requests) + trace
      && bucket.objects == AfterDeletes(old(bucket.objects), trace, old(bucket.deleteFailures))
      && n == DeletedCount(v, trace, old(bucket.deleteFailures))
    ensures bucket.pages == old(bucket.pages) && bucket.deleteFailures == old(bucket.deleteFailures)
    ensures bucket.putFails == old(bucket.putFails)
  {
    var failures := bucket.deleteFailures;
    ghost var m := bucket.objects;
    ghost var requested := bucket.requests;
    n := 0;
    var i := 0;
    while i < |objs|
      invariant 0 <= i <= |objs|
      invariant bucket.requests == requested + DeleteAll(Expired(objs[..i], cutoff))
      invariant bucket.objects == AfterDeletes(m, DeleteAll(Expired(objs[..i], cutoff)), failures)
      invariant n == DeletedCount(v, DeleteAll(Expired(objs[..i], cutoff)), failures)
      invariant bucket.pages == old(bucket.pages) && bucket.putFails == old(bucket.putFails)
      invariant bucket.deleteFailures == failures
    {
      ObjectStep(v, m, objs, i, cutoff, failures);
      AppendAssoc(requested, DeleteAll(Expired(objs[..i], cutoff)), ObjectTrace(objs[i], cutoff));
      var counted := PruneObject(v, bucket, objs[i], cutoff);
      n := n + counted;
      i := i + 1;
    }
    assert objs[..i] == objs;
  }

  /** Reading one more page that succeeds adds that page's calls. */
  lemma PageStep(prefix: string, done: seq<Page>, page: Page, cutoff: int)
    requires PageFailed !in done && page.Page?
    ensures PageFailed !in done + [page]
    ensures CleanupTrace(prefix, done + [page], cutoff) == CleanupTrace(prefix, done, cutoff) + PageTrace(prefix, page, cutoff)
  {
    CleanupTraceAppend(prefix, done, [page], cutoff);
    assert CleanupTrace(prefix, [page], cutoff) == PageTrace(prefix, page, cutoff) + CleanupTrace(prefix, [], cutoff);
  }

  /** A failing page ends the calls with its listing call. */
  lemma FailedPageStep(prefix: string, done: seq<Page>, rest: seq<Page>, cutoff: int)
    requires PageFailed !in done
    ensures CleanupTrace(prefix, done + [PageFailed] + rest, cutoff) == CleanupTrace(prefix, done, cutoff) + PageTrace(prefix, PageFailed, cutoff)
  {
    assert done + [PageFailed] + rest == done + ([PageFailed] + rest);
    CleanupTraceAppend(prefix, done, [PageFailed] + rest, cutoff);
  }

  /** A listing call neither removes an object nor adds to the count. */
  lemma ListingChangesNothing(v: Variant, m: map<string, int>, trace: seq<StoreRequest>, prefix: string, failures: set<string>)
    ensures AfterDeletes(m, trace + [ListObjects(prefix)], failures) == AfterDeletes(m, trace, failures)
    ensures DeletedCount(v, trace + [ListObjects(prefix)], failures) == DeletedCount(v, trace, failures)
  {
    var t := trace + [ListObjects(prefix)];
    assert t[..|t| - 1] == trace;
  }

  /** Appending a page's calls to a replay continues the replay and the count. */
  lemma PageTraceAppend(v: Variant, m: map<string, int>, before: seq<StoreRequest>, prefix: string, page: Page, cutoff: int, failures: set<string>)
    ensures
      var t := PageTrace(prefix, page, cutoff);
      && AfterDeletes(m, before + t, failures) == AfterDeletes(AfterDeletes(m, before, failures), t, failures)
      && DeletedCount(v, before + t, failures) == DeletedCount(v, before, failures) + DeletedCount(v, t, failures)
  {
    var t := PageTrace(prefix, page, cutoff);
    AfterDeletesAppend(m, before, t, failures);
    DeletedCountAppend(v, before, t, failures);
  }

  lemma SplitFirst<T>(done: seq<T>, rest: seq<T>)
    requires rest != []
    ensures done + rest == done + [rest[0]] + rest[1..]
  {
    assert rest == [rest[0]] + rest[1..];
  }

  lemma AppendAssoc<T>(a: seq<T>, b: seq<T>, c: seq<T>)
    ensures a + b + c == a + (b + c)
  {
  }

  /** Reads the next page and, when it was read, prunes it. */
  method ReadPage(v: Variant, bucket: Bucket, listPrefix: string, cutoff: int) returns (page: Page, n: nat)
    requires bucket.pages != []
    modifies bucket
    ensures page == old(bucket.pages)[0] && bucket.pages == old(bucket.pages)[1..]
    ensures
      var trace := PageTrace(listPrefix, page, cutoff);
      && bucket.requests == old(bucket.requests) + trace
      && bucket.objects == AfterDeletes(old(bucket.objects), trace, old(bucket.deleteFailures))
      && n == DeletedCount(v, trace, old(bucket.deleteFailures))
    ensures bucket.deleteFailures == old(bucket.deleteFailures) && bucket.putFails == old(bucket.putFails)
  {
    page := bucket.NextPage(listPrefix);
    var listing := [ListObjects(listPrefix)];
    ListingChangesNothing(v, old(bucket.objects), [], listPrefix, old(bucket.deleteFailures));
    if page.PageFailed? {
      assert PageTrace(listPrefix, page, cutoff) == listing;
      return page, 0;
    }
    ghost var deletes := DeleteAll(Expired(page.objects, cutoff));
    AfterDeletesAppend(old(bucket.objects), listing, deletes, old(bucket.deleteFailures));
    DeletedCountAppend(v, listing, deletes, old(bucket.deleteFailures));
    n := PrunePage(v, bucket, page.objects, cutoff);
  }

  /**
    The paging loop of cleanup: reads pages until there are none left or
    one fails, pruning each page that succeeds.
  */
  method PrunePages(v: Variant, bucket: Bucket, listPrefix: string, cutoff: int) returns (failed: bool, deleted: nat)
    modifies bucket
    ensures
      var trace := CleanupTrace(listPrefix, old(bucket.pages), cutoff);
      && bucket.requests == old(bucket.requests) + trace
      && bucket.objects == AfterDeletes(old(bucket.objects), trace, old(bucket.deleteFailures))
      && (failed <==> PageFailed in old(bucket.pages))
      && deleted == DeletedCount(v, trace, old(bucket.deleteFailures))
    ensures bucket.pages == old(bucket.pages)[PagesRead(old(bucket.pages))..]
    ensures bucket.deleteFailures == old(bucket.deleteFailures) && bucket.putFails == old(bucket.putFails)
  {
    var failures := bucket.deleteFailures;
    ghost var m := bucket.objects;
    deleted := 0;
    ghost var done: seq<Page> := [];
    while bucket.pages != []
      invariant old(bucket.pages) == done + bucket.pages
      invariant PageFailed !in done
      invariant bucket.requests == old(bucket.requests) + CleanupTrace(listPrefix, done, cutoff)
      invariant bucket.objects == AfterDeletes(m, CleanupTrace(listPrefix, done, cutoff), failures)
      invariant deleted == DeletedCount(v, CleanupTrace(listPrefix, done, cutoff), failures)
      invariant bucket.deleteFailures == failures && bucket.putFails == old(bucket.putFails)
      decreases |bucket.pages|
    {
      ghost var before := CleanupTrace(listPrefix, done, cutoff);
      ghost var requested := bucket.requests;
      ghost var unread := bucket.pages;
      SplitFirst(done, bucket.pages);
      var page, n := ReadPage(v, bucket, listPrefix, cutoff);
      PageTraceAppend(v, m, before, listPrefix, page, cutoff, failures);
      AppendAssoc(old(bucket.requests), before, PageTrace(listPrefix, page, cutoff));
      if page.PageFailed? {
        FailedPageStep(listPrefix, done, bucket.pages, cutoff);
        PagesReadAppend(done, unread);
        assert old(bucket.pages)[|done| + 1..] == unread[1..];
        return true, deleted;
      }
      PageStep(listPrefix, done, page, cutoff);
      deleted := deleted + n;
      done := done + [page];
    }
    assert done == old(bucket.pages);
    failed := false;
  }

  /** The keys of the delete calls in `trace`, in the order they were made. */
  function DeletedKeys(trace: seq<StoreRequest>): (keys: seq<string>)
    ensures |keys| <= |trace|
  {
    if trace == [] then []
    else
      var r := trace[|trace| - 1];
      DeletedKeys(trace[..|trace| - 1]) + if r.DeleteObject? then [r.key] else []
  }

  lemma {:induction false} DeletedKeysAppend(a: seq<StoreRequest>, b: seq<StoreRequest>)
    ensures DeletedKeys(a + b) == DeletedKeys(a) + DeletedKeys(b)
  {
    if b != [] {
      assert (a + b)[..|a + b| - 1] == a + b[..|b| - 1];
      DeletedKeysAppend(a, b[..|b| - 1]);
    } else {
      assert a + b == a;
    }
  }

  lemma {:induction false} DeletedKeysOfDeleteAll(keys: seq<string>)
    ensures DeletedKeys(DeleteAll(keys)) == keys
  {
    if keys != [] {
      var init := keys[..|keys| - 1];
      DeletedKeysOfDeleteAll(init);
      DeletedKeysAppend(DeleteAll(init), [DeleteObject(keys[|keys| - 1])]);
      assert [DeleteObject(keys[|keys| - 1])][..0] == [];
      assert keys == init + [keys[|keys| - 1]];
    }
  }

  /** A page that was read contributes its expired keys, and a listing call no key. */
  lemma PageDeletes(prefix: string, objs: seq<Listed>, cutoff: int, tail: seq<StoreRequest>)
    ensures DeletedKeys([ListObjects(prefix)] + DeleteAll(Expired(objs, cutoff)) + tail) == Expired(objs, cutoff) + DeletedKeys(tail)
  {
    var listing := [ListObjects(prefix)];
    var deletes := DeleteAll(Expired(objs, cutoff));
    assert DeletedKeys(listing) == [] by {
      assert listing[..0] == [];
    }
    DeletedKeysAppend(listing + deletes, tail);
    DeletedKeysAppend(listing, deletes);
    DeletedKeysOfDeleteAll(Expired(objs, cutoff));
  }

  /**
    Cleanup deletes exactly the listed objects older than the cutoff, in
    listing order, and nothing from the pages after a failing one.
  */
  lemma {:induction false} CleanupDeletesExpired(prefix: string, pages: seq<Page>, cutoff: int)
    ensures DeletedKeys(CleanupTrace(prefix, pages, cutoff)) == Expired(ListedObjects(pages), cutoff)
  {
    if pages != [] {
      if pages[0].PageFailed? {
        var listing := [ListObjects(prefix)];
        assert listing[..0] == [];
      } else {
        var objs := pages[0].objects;
        CleanupDeletesExpired(prefix, pages[1..], cutoff);
        PageDeletes(prefix, objs, cutoff, CleanupTrace(prefix, pages[1..], cutoff));
        ExpiredAppend(objs, ListedObjects(pages[1..]), cutoff);
      }
    }
  }

  /**
    containers/truenas_backup_to_s3 reports one deletion per delete call;
    containers/truenas_backup reports the same number exactly when no
    delete failed, and fewer otherwise.
  */
  lemma {:induction false} DeletedCountByVariant(trace: seq<StoreRequest>, failures: set<string>)
    ensures DeletedCount(TrueNasBackupToS3, trace, failures) == |DeletedKeys(trace)|
    ensures DeletedCount(TrueNasBackup, trace, failures) <= DeletedCount(TrueNasBackupToS3, trace, failures)
    ensures DeletedCount(TrueNasBackup, trace, failures) == DeletedCount(TrueNasBackupToS3, trace, failures)
      <==> forall k :: k in DeletedKeys(trace) ==> k !in failures
  {
    if trace != [] {
      var init := trace[..|trace| - 1];
      var r := trace[|trace| - 1];
      DeletedCountByVariant(init, failures);
      assert forall k :: k in DeletedKeys(trace) <==> k in DeletedKeys(init) || (r.DeleteObject? && k == r.key);
    }
  }

  /** The keys a replay of `trace` removes: those deleted and not refused. */
  lemma {:induction false} RemovedKeysAreDeletedKeys(trace: seq<StoreRequest>, failures: set<string>)
    ensures RemovedKeys(trace, failures) == set k | k in DeletedKeys(trace) && k !in failures
  {
    if trace != [] {
      var init := trace[..|trace| - 1];
      var r := trace[|trace| - 1];
      var added: set<string> := if r.DeleteObject? && r.key !in failures then {r.key} else {};
      RemovedKeysAreDeletedKeys(init, failures);
      assert forall x :: x in trace <==> x in init || x == r;
      assert RemovedKeys(trace, failures) == RemovedKeys(init, failures) + added;
      assert forall k :: k in DeletedKeys(trace) <==> k in DeletedKeys(init) || (r.DeleteObject? && k == r.key);
      assert (set k | k in DeletedKeys(trace) && k !in failures) ==
        (set k | k in DeletedKeys(init) && k !in failures) + added;
    }
  }

  /**
    What a cleanup with a positive retention leaves in the bucket: every
    object except the listed ones older than the cutoff whose delete the
    store accepted.
  */
  lemma CleanupRemovesExpired(prefix: string, pages: seq<Page>, cutoff: int, failures: set<string>)
    ensures RemovedKeys(CleanupTrace(prefix, pages, cutoff), failures) ==
      set k | k in Expired(ListedObjects(pages), cutoff) && k !in failures
  {
    RemovedKeysAreDeletedKeys(CleanupTrace(prefix, pages, cutoff), failures);
    CleanupDeletesExpired(prefix, pages, cutoff);
  }

  /**
    With thirty days of retention at 2024-03-01 00:00:00 UTC the cutoff is
    2024-01-31 00:00:00 UTC: a backup from 2024-01-01 is deleted, one from
    2024-02-20 is kept.
  */
  lemma RetentionExample()
    ensures Cutoff(1709251200, 30) == 1706659200
    ensures Expired([Listed("b/old.tar", 1704067200), Listed("b/new.tar", 1708387200)], 1706659200) == ["b/old.tar"]
  {
    var objs := [Listed("b/old.tar", 1704067200), Listed("b/new.tar", 1708387200)];
    assert objs[..1] == [objs[0]];
    assert objs[..1][..0] == [];
  }

  datatype CleanupResult =
    | Skipped          // retention of zero days or less: nothing is listed or deleted
    | Pruned(deleted: nat)
    | ListingFailed

  /**
    `cleanupOldBackups` / `cleanup`. With a positive retention it lists
    every page under the list prefix and deletes exactly the listed objects
    last modified strictly before `now - days * 86400`; a failed delete
    does not stop it, a failed page does.
  */
  method Cleanup(v: Variant, bucket: Bucket, prefix: string, days: int, now: int) returns (r: CleanupResult)
    modifies bucket
    ensures days <= 0 ==> r == Skipped
    ensures days <= 0 ==> bucket.requests == old(bucket.requests) && bucket.objects == old(bucket.objects)
    ensures days > 0 ==>
      var trace := CleanupTrace(ListPrefix(v, prefix), old(bucket.pages), Cutoff(now, days));
      && bucket.requests == old(bucket.requests) + trace
      && bucket.objects == old(bucket.objects) - RemovedKeys(trace, old(bucket.deleteFailures))
      && (r == ListingFailed <==> PageFailed in old(bucket.pages))
      && (r != ListingFailed ==> r == Pruned(DeletedCount(v, trace, old(bucket.deleteFailures))))
    ensures bucket.pages == if days <= 0 then old(bucket.pages) else old(bucket.pages)[PagesRead(old(bucket.pages))..]
    ensures bucket.deleteFailures == old(bucket.deleteFailures) && bucket.putFails == old(bucket.putFails)
  {
    if days <= 0 {
      return Skipped;
    }
    var listPrefix := ListPrefix(v, prefix);
    var cutoff := Cutoff(now, days);
    ghost var trace := CleanupTrace(listPrefix, bucket.pages, cutoff);
    AfterDeletesRemoves(bucket.objects, trace, bucket.deleteFailures);
    var failed, deleted := PrunePages(v, bucket, listPrefix, cutoff);
    if failed {
      return ListingFailed;
    }
    r := Pruned(deleted);
  }
}

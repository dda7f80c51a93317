/**
 * `sync`: walk one batch of bookmarks from the feed, skip the incomplete ones,
 * classify the rest as drafts or posts, create a linkpost for each, and only after
 * the whole batch advance the configuration's cursor to the one that came with it.
 *
 * The feed client is not modelled: the batch, in the order the item dictionary is
 * iterated, and the cursor returned with it are inputs. So is the wall clock,
 * `clock(i)` being the time read while item `i` is processed.
 */
module Sync {
  import opened Wrappers
  import opened Linkpost

  /** One bookmark record, with the fields `sync` reads; `timeAdded` already converted to a datetime. */
  datatype Item = Item(
    givenUrl: Option<string>,
    resolvedId: Option<string>,
    resolvedTitle: Option<string>,
    timeAdded: Option<Timestamp>)

  /** Python truthiness of a value that is a string or `None`. */
  predicate Present(v: Option<string>) {
    v.Some? && v.value != ""
  }

  /** `all([url, item_id])`: the record has a url and an id. */
  predicate Complete(item: Item) {
    Present(item.givenUrl) && Present(item.resolvedId)
  }

  /** `title in [None, '']`. */
  predicate IsDraft(item: Item) {
    !Present(item.resolvedTitle)
  }

  /** What a run of `sync` depends on besides the batch and the files. */
  datatype Context = Context(
    settings: map<string, string>,  // the configuration entries naming the destination directories
    dirs: set<string>,              // the existing directories
    env: Env,                       // the article fetch and the libraries behind it
    clock: nat -> Timestamp)        // datetime.now() while item i is processed

  /** The item's own time when it has one, else the current time. */
  function Stamp(ctx: Context, i: nat, item: Item): Timestamp {
    if item.timeAdded.Some? then item.timeAdded.value else ctx.clock(i)
  }

  /** The file a complete item is materialised to. */
  function ItemPath(ctx: Context, i: nat, item: Item): string
    requires Complete(item)
  {
    LinkFileName(TargetDir(ctx.settings, IsDraft(item)), Stamp(ctx, i, item), item.resolvedId.value)
  }

  /** The call `create_linkpost(config, item_id, title, url, timestamp, is_draft)` for item `i`. */
  function Attempt(ctx: Context, files: map<string, string>, i: nat, item: Item): CreateResult
    requires Complete(item)
  {
    LinkpostOutcome(ctx.settings, files, ctx.dirs, ctx.env, item.resolvedId.value, item.resolvedTitle,
                    item.givenUrl.value, Stamp(ctx, i, item), IsDraft(item))
  }

  /**
   * The state of a run part-way through the batch: the files, the two counters, and
   * the missing directory when `create_linkpost` has raised its `RuntimeError`.
   */
  datatype Progress = Progress(files: map<string, string>, skipped: nat, drafts: nat, failure: Option<string>)

  /**
   * One iteration of the loop. An incomplete item is counted as skipped; a complete
   * one is counted as a draft when it has no title, before `create_linkpost` runs,
   * and an `IOError` from that call (file exists, file cannot be opened) changes no
   * counter.
   */
  function Step(ctx: Context, p: Progress, i: nat, item: Item): Progress {
    if !Complete(item) then p.(skipped := p.skipped + 1)
    else
      var r := Attempt(ctx, p.files, i, item);
      Progress(Applied(p.files, r), p.skipped, if IsDraft(item) then p.drafts + 1 else p.drafts,
               if r.DestinationMissing? then Some(r.dir) else None)
  }

  /** What one iteration of a loop over bookmarks does to the run's state, given the item and its index. */
  type Body = (Progress, nat, Item) -> Progress

  /**
   * The `for` loop over the first `n` items of `batch` with `body` as its body,
   * from `start`. An iteration that records a failure ends the loop, as the
   * `RuntimeError` ends `sync`.
   */
  function Loop(body: Body, batch: seq<Item>, start: Progress, n: nat): Progress
    requires n <= |batch|
  {
    if n == 0 then start
    else
      var p := Loop(body, batch, start, n - 1);
      if p.failure.Some? then p else body(p, n - 1, batch[n - 1])
  }

  /** The body of `sync`'s loop. */
  function SyncBody(ctx: Context): Body {
    (p: Progress, i: nat, item: Item) => Step(ctx, p, i, item)
  }

  /** `sync`'s loop over the first `n` items, from the files it starts with and zero counters. */
  function Run(ctx: Context, batch: seq<Item>, files0: map<string, string>, n: nat): Progress
    requires n <= |batch|
  {
    Loop(SyncBody(ctx), batch, Progress(files0, 0, 0, None), n)
  }

  /** Once the loop has failed, the later items are never visited. */
  lemma {:induction false} LoopHaltsAtFailure(body: Body, batch: seq<Item>, start: Progress, j: nat, n: nat)
    requires j <= n <= |batch|
    requires Loop(body, batch, start, j).failure.Some?
    ensures Loop(body, batch, start, n) == Loop(body, batch, start, j)
    decreases n
  {
    if n > j {
      LoopHaltsAtFailure(body, batch, start, j, n - 1);
    }
  }

  /** The body counts an incomplete item as skipped, and a complete one without a title as a draft. */
  ghost predicate Counts(body: Body) {
    forall p: Progress, i: nat, item: Item ::
      body(p, i, item).skipped == p.skipped + (if Complete(item) then 0 else 1) &&
      body(p, i, item).drafts == p.drafts + (if Complete(item) && IsDraft(item) then 1 else 0)
  }

  /** Each iteration adds to at most one of the two counters. */
  lemma {:induction false} LoopCountsBounded(body: Body, batch: seq<Item>, start: Progress, n: nat)
    requires n <= |batch| && Counts(body)
    ensures Loop(body, batch, start, n).skipped + Loop(body, batch, start, n).drafts <= start.skipped + start.drafts + n
  {
    if n > 0 {
      LoopCountsBounded(body, batch, start, n - 1);
    }
  }

  /** The number of items without a url or an id. */
  function CountIncomplete(items: seq<Item>): nat {
    if items == [] then 0
    else CountIncomplete(items[..|items| - 1]) + (if Complete(items[|items| - 1]) then 0 else 1)
  }

  /** The number of complete items without a title. */
  function CountDrafts(items: seq<Item>): nat {
    if items == [] then 0
    else CountDrafts(items[..|items| - 1]) + (if Complete(items[|items| - 1]) && IsDraft(items[|items| - 1]) then 1 else 0)
  }

  /** The number of complete items with a title. */
  function CountPosts(items: seq<Item>): nat {
    if items == [] then 0
    else CountPosts(items[..|items| - 1]) + (if Complete(items[|items| - 1]) && !IsDraft(items[|items| - 1]) then 1 else 0)
  }

  /** Every item is incomplete, a draft or a post. */
  lemma {:induction false} CountsPartition(items: seq<Item>)
    ensures CountIncomplete(items) + CountDrafts(items) + CountPosts(items) == |items|
  {
    if items != [] {
      CountsPartition(items[..|items| - 1]);
    }
  }

  /** Until the loop fails, the counters count the incomplete items and the untitled complete ones. */
  lemma {:induction false} LoopCounts(body: Body, batch: seq<Item>, start: Progress, n: nat)
    requires n <= |batch| && Counts(body)
    requires Loop(body, batch, start, n).failure.None?
    ensures Loop(body, batch, start, n).skipped == start.skipped + CountIncomplete(batch[..n])
    ensures Loop(body, batch, start, n).drafts == start.drafts + CountDrafts(batch[..n])
  {
    if n > 0 {
      assert Loop(body, batch, start, n - 1).failure.None?;
      LoopCounts(body, batch, start, n - 1);
      assert batch[..n][..n - 1] == batch[..n - 1];
    }
  }

  /** The body never changes or removes an existing file. */
  ghost predicate KeepsFiles(body: Body) {
    forall p: Progress, i: nat, item: Item :: Extends(body(p, i, item).files, p.files)
  }

  /** Files present part-way through the loop are there, unchanged, at every later point. */
  lemma {:induction false} LoopKeepsFiles(body: Body, batch: seq<Item>, start: Progress, j: nat, n: nat)
    requires j <= n <= |batch| && KeepsFiles(body)
    ensures Extends(Loop(body, batch, start, n).files, Loop(body, batch, start, j).files)
    decreases n
  {
    if n > j {
      LoopKeepsFiles(body, batch, start, j, n - 1);
      var p := Loop(body, batch, start, n - 1);
      if p.failure.None? {
        ExtendsTransitive(Loop(body, batch, start, j).files, p.files, body(p, n - 1, batch[n - 1]).files);
      }
    }
  }

  /** The body adds files only at the paths `allowed` gives for the item. */
  ghost predicate AddsOnly(body: Body, allowed: (nat, Item) -> set<string>) {
    forall p: Progress, i: nat, item: Item :: body(p, i, item).files.Keys <= p.files.Keys + allowed(i, item)
  }

  /** Every file the loop creates is at a path allowed for one of the items it visited. */
  lemma {:induction false} LoopAddsOnly(body: Body, allowed: (nat, Item) -> set<string>, batch: seq<Item>,
                                        start: Progress, n: nat)
    requires n <= |batch| && AddsOnly(body, allowed)
    ensures forall q :: q in Loop(body, batch, start, n).files && q !in start.files ==>
      exists k :: 0 <= k < n && q in allowed(k, batch[k])
  {
    if n > 0 {
      LoopAddsOnly(body, allowed, batch, start, n - 1);
      var p := Loop(body, batch, start, n - 1);
      forall q | q in Loop(body, batch, start, n).files && q !in start.files
        ensures exists k :: 0 <= k < n && q in allowed(k, batch[k])
      {
        if q !in p.files {
          assert q in allowed(n - 1, batch[n - 1]);
        }
      }
    }
  }

  /** On `files`, the body changes nothing but the counters, for every item of `batch`. */
  ghost predicate IdleOn(body: Body, batch: seq<Item>, files: map<string, string>) {
    forall skipped: nat, drafts: nat, k: nat :: k < |batch| ==>
      var next := body(Progress(files, skipped, drafts, None), k, batch[k]);
      next.files == files && next.failure.None?
  }

  /** A loop whose body is idle on its files leaves them as they are and does not fail. */
  lemma {:induction false} LoopOverIdle(body: Body, batch: seq<Item>, start: Progress, n: nat)
    requires n <= |batch| && start.failure.None? && IdleOn(body, batch, start.files)
    ensures Loop(body, batch, start, n).files == start.files
    ensures Loop(body, batch, start, n).failure.None?
  {
    if n > 0 {
      LoopOverIdle(body, batch, start, n - 1);
      var p := Loop(body, batch, start, n - 1);
      assert p == Progress(start.files, p.skipped, p.drafts, None);
      assert Loop(body, batch, start, n) == body(p, n - 1, batch[n - 1]);
    }
  }

  /** The body never records a failure when there was none. */
  ghost predicate NeverFails(body: Body) {
    forall p: Progress, i: nat, item: Item :: p.failure.None? ==> body(p, i, item).failure.None?
  }

  /** A loop whose body never fails goes through the whole batch. */
  lemma {:induction false} LoopCompletes(body: Body, batch: seq<Item>, start: Progress, n: nat)
    requires n <= |batch| && start.failure.None? && NeverFails(body)
    ensures Loop(body, batch, start, n).failure.None?
  {
    if n > 0 {
      LoopCompletes(body, batch, start, n - 1);
    }
  }

  /** `sync` counts incomplete items as skipped and untitled ones as drafts, whatever `create_linkpost` does. */
  lemma SyncBodyCounts(ctx: Context)
    ensures Counts(SyncBody(ctx))
  {
  }

  /** One iteration never changes or removes an existing file. */
  lemma StepKeepsFiles(ctx: Context, p: Progress, i: nat, item: Item)
    ensures Extends(Step(ctx, p, i, item).files, p.files)
  {
    if Complete(item) {
      OutcomeKeepsFiles(ctx.settings, p.files, ctx.dirs, ctx.env, item.resolvedId.value, item.resolvedTitle,
                        item.givenUrl.value, Stamp(ctx, i, item), IsDraft(item));
    }
  }

  lemma SyncBodyKeepsFiles(ctx: Context)
    ensures KeepsFiles(SyncBody(ctx))
  {
    forall p: Progress, i: nat, item: Item
      ensures Extends(SyncBody(ctx)(p, i, item).files, p.files)
    {
      StepKeepsFiles(ctx, p, i, item);
    }
  }

  /** The linkpost file of item `i`, for a complete item; none for an incomplete one. */
  function Targets(ctx: Context): (nat, Item) -> set<string> {
    (i: nat, item: Item) => if Complete(item) then {ItemPath(ctx, i, item)} else {}
  }

  /** An iteration adds at most the linkpost file of its own item. */
  lemma SyncBodyAddsOnly(ctx: Context)
    ensures AddsOnly(SyncBody(ctx), Targets(ctx))
  {
    forall p: Progress, i: nat, item: Item
      ensures SyncBody(ctx)(p, i, item).files.Keys <= p.files.Keys + Targets(ctx)(i, item)
    {
      if Complete(item) {
        OutcomeKeepsFiles(ctx.settings, p.files, ctx.dirs, ctx.env, item.resolvedId.value, item.resolvedTitle,
                          item.givenUrl.value, Stamp(ctx, i, item), IsDraft(item));
      }
    }
  }

  /** With both destination directories in place, no iteration raises the `RuntimeError`. */
  lemma SyncBodyNeverFails(ctx: Context)
    requires TargetDir(ctx.settings, true) in ctx.dirs && TargetDir(ctx.settings, false) in ctx.dirs
    ensures NeverFails(SyncBody(ctx))
  {
    forall p: Progress, i: nat, item: Item | p.failure.None?
      ensures SyncBody(ctx)(p, i, item).failure.None?
    {
      assert SyncBody(ctx)(p, i, item) == Step(ctx, p, i, item);
      if Complete(item) {
        assert TargetDir(ctx.settings, IsDraft(item)) in ctx.dirs;
        LinkpostGuards(ctx.settings, p.files, ctx.dirs, ctx.env, item.resolvedId.value, item.resolvedTitle,
                       item.givenUrl.value, Stamp(ctx, i, item), IsDraft(item));
      }
    }
  }

  /** The run after one more item, when it has not failed before it. */
  lemma RunNext(ctx: Context, batch: seq<Item>, files0: map<string, string>, i: nat)
    requires i < |batch|
    requires Run(ctx, batch, files0, i).failure.None?
    ensures Run(ctx, batch, files0, i + 1) == Step(ctx, Run(ctx, batch, files0, i), i, batch[i])
  {
  }

  /** An incomplete item only adds to the skipped counter. */
  lemma RunSkips(ctx: Context, batch: seq<Item>, files0: map<string, string>, i: nat)
    requires i < |batch| && !Complete(batch[i])
    requires Run(ctx, batch, files0, i).failure.None?
    ensures var p := Run(ctx, batch, files0, i);
      Run(ctx, batch, files0, i + 1) == p.(skipped := p.skipped + 1)
  {
    RunNext(ctx, batch, files0, i);
  }

  /** A complete item applies what `create_linkpost` does for it and counts a draft. */
  lemma RunAttempts(ctx: Context, batch: seq<Item>, files0: map<string, string>, i: nat, p: Progress, r: CreateResult)
    requires i < |batch| && Complete(batch[i])
    requires Run(ctx, batch, files0, i) == p && p.failure.None?
    requires r == Attempt(ctx, p.files, i, batch[i])
    ensures Run(ctx, batch, files0, i + 1) ==
      Progress(Applied(p.files, r), p.skipped, if IsDraft(batch[i]) then p.drafts + 1 else p.drafts,
               if r.DestinationMissing? then Some(r.dir) else None)
  {
    RunNext(ctx, batch, files0, i);
  }

  /** Every item adds to at most one of the two counters. */
  lemma RunCountsBounded(ctx: Context, batch: seq<Item>, files0: map<string, string>, n: nat)
    requires n <= |batch|
    ensures Run(ctx, batch, files0, n).skipped + Run(ctx, batch, files0, n).drafts <= n
  {
    SyncBodyCounts(ctx);
    LoopCountsBounded(SyncBody(ctx), batch, Progress(files0, 0, 0, None), n);
  }

  /** Once a run has failed, the later items are never visited. */
  lemma RunHaltsAtFailure(ctx: Context, batch: seq<Item>, files0: map<string, string>, j: nat, n: nat)
    requires j <= n <= |batch|
    requires Run(ctx, batch, files0, j).failure.Some?
    ensures Run(ctx, batch, files0, n) == Run(ctx, batch, files0, j)
  {
    LoopHaltsAtFailure(SyncBody(ctx), batch, Progress(files0, 0, 0, None), j, n);
  }

  /**
   * Until the run fails, every incomplete item is counted as skipped (and does not
   * stop the loop), and every complete item without a title is counted as a draft,
   * whether or not its file gets written.
   */
  lemma RunCounts(ctx: Context, batch: seq<Item>, files0: map<string, string>, n: nat)
    requires n <= |batch|
    requires Run(ctx, batch, files0, n).failure.None?
    ensures Run(ctx, batch, files0, n).skipped == CountIncomplete(batch[..n])
    ensures Run(ctx, batch, files0, n).drafts == CountDrafts(batch[..n])
  {
    SyncBodyCounts(ctx);
    LoopCounts(SyncBody(ctx), batch, Progress(files0, 0, 0, None), n);
  }

  /** Files present part-way through a run are there, unchanged, at every later point. */
  lemma RunKeepsFiles(ctx: Context, batch: seq<Item>, files0: map<string, string>, j: nat, n: nat)
    requires j <= n <= |batch|
    ensures Extends(Run(ctx, batch, files0, n).files, Run(ctx, batch, files0, j).files)
  {
    SyncBodyKeepsFiles(ctx);
    LoopKeepsFiles(SyncBody(ctx), batch, Progress(files0, 0, 0, None), j, n);
  }

  /**
   * Every file a run creates is the linkpost of a complete item of the batch; an
   * incomplete item never gets one.
   */
  lemma RunWritesOnlyTargets(ctx: Context, batch: seq<Item>, files0: map<string, string>, n: nat)
    requires n <= |batch|
    ensures forall q :: q in Run(ctx, batch, files0, n).files && q !in files0 ==>
      exists k :: 0 <= k < n && Complete(batch[k]) && q == ItemPath(ctx, k, batch[k])
  {
    SyncBodyAddsOnly(ctx);
    LoopAddsOnly(SyncBody(ctx), Targets(ctx), batch, Progress(files0, 0, 0, None), n);
    forall q | q in Run(ctx, batch, files0, n).files && q !in files0
      ensures exists k :: 0 <= k < n && Complete(batch[k]) && q == ItemPath(ctx, k, batch[k])
    {
      var k :| 0 <= k < n && q in Targets(ctx)(k, batch[k]);
      assert Complete(batch[k]) && q == ItemPath(ctx, k, batch[k]);
    }
  }

  /** A run that has not failed had not failed at any earlier point. */
  lemma RunNotFailedBefore(ctx: Context, batch: seq<Item>, files0: map<string, string>, k: nat, n: nat)
    requires k <= n <= |batch|
    requires Run(ctx, batch, files0, n).failure.None?
    ensures Run(ctx, batch, files0, k).failure.None?
  {
    if Run(ctx, batch, files0, k).failure.Some? {
      RunHaltsAtFailure(ctx, batch, files0, k, n);
    }
  }

  /** Item `k` of a run that got past it met an existing destination directory. */
  lemma RunPastItem(ctx: Context, batch: seq<Item>, files0: map<string, string>, k: nat)
    requires k < |batch| && Complete(batch[k])
    requires Run(ctx, batch, files0, k + 1).failure.None?
    ensures var before := Run(ctx, batch, files0, k);
      var r := Attempt(ctx, before.files, k, batch[k]);
      !r.DestinationMissing? && Run(ctx, batch, files0, k + 1).files == Applied(before.files, r)
  {
    RunNotFailedBefore(ctx, batch, files0, k, k + 1);
    RunNext(ctx, batch, files0, k);
  }

  /**
   * A second run that has the first run's configuration and directories and, for
   * every complete item without its own time, reads the clock on the same day as
   * the first run did. The fetched pages may differ.
   */
  predicate SameDayRerun(ctx1: Context, ctx2: Context, batch: seq<Item>) {
    ctx2.settings == ctx1.settings && ctx2.dirs == ctx1.dirs &&
    forall k :: 0 <= k < |batch| && Complete(batch[k]) && batch[k].timeAdded.None? ==>
      SameDay(ctx1.clock(k), ctx2.clock(k))
  }

  /** In a same-day rerun a complete item is stamped on the same day as before. */
  lemma StampsSameDay(ctx1: Context, ctx2: Context, batch: seq<Item>, k: nat)
    requires k < |batch| && Complete(batch[k])
    requires SameDayRerun(ctx1, ctx2, batch)
    ensures SameDay(Stamp(ctx1, k, batch[k]), Stamp(ctx2, k, batch[k]))
  {
  }

  /**
   * Once the call for item `k` has got past the directory check, a call for it in a
   * same-day rerun, on files that keep what the first call left, does not write.
   */
  lemma RetryItemNeverWrites(ctx1: Context, ctx2: Context, k: nat, item: Item,
                             before: map<string, string>, after: map<string, string>, later: map<string, string>)
    requires Complete(item) && SameDay(Stamp(ctx1, k, item), Stamp(ctx2, k, item))
    requires ctx2.settings == ctx1.settings && ctx2.dirs == ctx1.dirs
    requires !Attempt(ctx1, before, k, item).DestinationMissing?
    requires after == Applied(before, Attempt(ctx1, before, k, item)) && Extends(later, after)
    ensures Attempt(ctx2, later, k, item).AlreadyExists? || Attempt(ctx2, later, k, item).OpenFailed?
  {
    RetryNeverWrites(ctx1.settings, before, later, ctx1.dirs, ctx1.env, ctx2.env, item.resolvedId.value,
                     item.resolvedTitle, item.resolvedTitle, item.givenUrl.value, item.givenUrl.value,
                     Stamp(ctx1, k, item), Stamp(ctx2, k, item), IsDraft(item));
  }

  /**
   * In a run that went through the whole batch, item `k` met an existing destination
   * directory, and the files at the end include what its iteration left.
   */
  lemma RunAroundItem(ctx: Context, batch: seq<Item>, files0: map<string, string>, k: nat)
    requires k < |batch| && Complete(batch[k])
    requires Run(ctx, batch, files0, |batch|).failure.None?
    ensures var before := Run(ctx, batch, files0, k).files;
      var r := Attempt(ctx, before, k, batch[k]);
      !r.DestinationMissing? && Extends(Run(ctx, batch, files0, |batch|).files, Applied(before, r))
  {
    RunNotFailedBefore(ctx, batch, files0, k + 1, |batch|);
    RunPastItem(ctx, batch, files0, k);
    RunKeepsFiles(ctx, batch, files0, k + 1, |batch|);
  }

  /**
   * After a run that went through the whole batch, the file of every complete item
   * exists or cannot be written, so a call for it in a same-day rerun does not write.
   */
  lemma ItemSettled(ctx1: Context, ctx2: Context, batch: seq<Item>, files0: map<string, string>, k: nat)
    requires k < |batch| && Complete(batch[k])
    requires SameDayRerun(ctx1, ctx2, batch)
    requires Run(ctx1, batch, files0, |batch|).failure.None?
    ensures var r := Attempt(ctx2, Run(ctx1, batch, files0, |batch|).files, k, batch[k]);
      r.AlreadyExists? || r.OpenFailed?
  {
    var before := Run(ctx1, batch, files0, k).files;
    RunAroundItem(ctx1, batch, files0, k);
    StampsSameDay(ctx1, ctx2, batch, k);
    RetryItemNeverWrites(ctx1, ctx2, k, batch[k], before, Applied(before, Attempt(ctx1, before, k, batch[k])),
                         Run(ctx1, batch, files0, |batch|).files);
  }

  /** No complete item of the batch would be written on `files`. */
  predicate Settled(ctx: Context, batch: seq<Item>, files: map<string, string>) {
    forall k :: 0 <= k < |batch| && Complete(batch[k]) ==>
      Attempt(ctx, files, k, batch[k]).AlreadyExists? || Attempt(ctx, files, k, batch[k]).OpenFailed?
  }

  /** On settled files, no iteration writes or fails. */
  lemma SyncBodyIdle(ctx: Context, batch: seq<Item>, files: map<string, string>)
    requires Settled(ctx, batch, files)
    ensures IdleOn(SyncBody(ctx), batch, files)
  {
    forall skipped: nat, drafts: nat, k: nat | k < |batch|
      ensures var next := SyncBody(ctx)(Progress(files, skipped, drafts, None), k, batch[k]);
        next.files == files && next.failure.None?
    {
      if Complete(batch[k]) {
        var r := Attempt(ctx, files, k, batch[k]);
        assert r.AlreadyExists? || r.OpenFailed?;
        assert Applied(files, r) == files;
      }
    }
  }

  /** On settled files a run changes nothing and only counts. */
  lemma RunOverSettled(ctx: Context, batch: seq<Item>, files: map<string, string>, m: nat)
    requires m <= |batch|
    requires Settled(ctx, batch, files)
    ensures Run(ctx, batch, files, m).files == files
    ensures Run(ctx, batch, files, m).failure.None?
    ensures Run(ctx, batch, files, m).skipped == CountIncomplete(batch[..m])
    ensures Run(ctx, batch, files, m).drafts == CountDrafts(batch[..m])
  {
    SyncBodyIdle(ctx, batch, files);
    LoopOverIdle(SyncBody(ctx), batch, Progress(files, 0, 0, None), m);
    RunCounts(ctx, batch, files, m);
  }

  /**
   * Running a batch again over the files the first run left, with the same
   * configuration and directories and on the same day for the items stamped with
   * the clock, writes nothing and reports the same counters: every item is skipped
   * as incomplete or refused as already existing, as before.
   */
  lemma RerunWritesNothing(ctx1: Context, ctx2: Context, batch: seq<Item>, files0: map<string, string>)
    requires SameDayRerun(ctx1, ctx2, batch)
    requires Run(ctx1, batch, files0, |batch|).failure.None?
    ensures var first := Run(ctx1, batch, files0, |batch|);
      var second := Run(ctx2, batch, first.files, |batch|);
      second.files == first.files && second.failure.None? &&
      second.skipped == first.skipped && second.drafts == first.drafts
  {
    var first := Run(ctx1, batch, files0, |batch|);
    forall k | 0 <= k < |batch| && Complete(batch[k])
      ensures Attempt(ctx2, first.files, k, batch[k]).AlreadyExists? || Attempt(ctx2, first.files, k, batch[k]).OpenFailed?
    {
      ItemSettled(ctx1, ctx2, batch, files0, k);
    }
    RunOverSettled(ctx2, batch, first.files, |batch|);
    RunCounts(ctx1, batch, files0, |batch|);
  }

  /** Two times on consecutive days. */
  const FirstDay: Timestamp := DateTime(2020, 1, 1, 9, 0, 0)
  const NextDay: Timestamp := DateTime(2020, 1, 2, 9, 0, 0)

  /**
   * A bookmark without `time_added`, synced on one day and again, over the files
   * the first run left, on the next day: the second run does not find the first
   * file, since its name carries the day of `datetime.now()`, and writes a second
   * linkpost for the same bookmark.
   */
  lemma NextDayRerunDuplicates(env: Env)
    ensures var dirs := {DefaultPostDir, DefaultDraftDir};
      var ctx1 := Context(map[], dirs, env, (k: nat) => FirstDay);
      var ctx2 := Context(map[], dirs, env, (k: nat) => NextDay);
      var batch := [Item(Some("u"), Some("1"), Some("B"), None)];
      var first := Run(ctx1, batch, map[], 1);
      var second := Run(ctx2, batch, first.files, 1);
      var p1, p2 := ItemPath(ctx1, 0, batch[0]), ItemPath(ctx2, 0, batch[0]);
      !SameDayRerun(ctx1, ctx2, batch) &&
      first.failure.None? && first.files.Keys == {p1} &&
      second.failure.None? && second.files.Keys == {p1, p2} && p1 != p2
  {
    var dirs := {DefaultPostDir, DefaultDraftDir};
    var ctx1 := Context(map[], dirs, env, (k: nat) => FirstDay);
    var ctx2 := Context(map[], dirs, env, (k: nat) => NextDay);
    var item := Item(Some("u"), Some("1"), Some("B"), None);
    var batch := [item];
    assert Complete(item) && !IsDraft(item);
    var dir := TargetDir(map[], false);
    assert dir == DefaultPostDir;
    assert Stamp(ctx1, 0, item) == FirstDay && Stamp(ctx2, 0, item) == NextDay;
    var p1, p2 := LinkFileName(dir, FirstDay, "1"), LinkFileName(dir, NextDay, "1");
    assert p1 != p2 by {
      if p1 == p2 {
        FileNameDeterminesKey(dir, FirstDay, "1", NextDay, "1");
      }
    }
    DateTextDeterminesDay(FirstDay, FirstDay);
    DateTextDeterminesDay(NextDay, NextDay);
    assert p1 !in dirs && p2 !in dirs by {
      assert |p1| > |DefaultDraftDir| > |DefaultPostDir| && |p2| == |p1|;
    }
    LinkFileInTargetDir(dir, FirstDay, "1");
    LinkFileInTargetDir(dir, NextDay, "1");
    var start1 := Progress(map[], 0, 0, None);
    var r1 := Attempt(ctx1, map[], 0, item);
    LinkpostGuards(map[], map[], dirs, env, "1", Some("B"), "u", FirstDay, false);
    assert r1.Written? && r1.path == p1;
    RunAttempts(ctx1, batch, map[], 0, start1, r1);
    var files1 := map[p1 := r1.text];
    assert Run(ctx1, batch, map[], 1) == Progress(files1, 0, 0, None);
    var start2 := Progress(files1, 0, 0, None);
    var r2 := Attempt(ctx2, files1, 0, item);
    LinkpostGuards(map[], files1, dirs, env, "1", Some("B"), "u", NextDay, false);
    assert r2.Written? && r2.path == p2;
    RunAttempts(ctx2, batch, files1, 0, start2, r2);
    assert Run(ctx2, batch, files1, 1).files == files1[p2 := r2.text];
    assert !SameDayRerun(ctx1, ctx2, batch) by {
      assert !SameDay(ctx1.clock(0), ctx2.clock(0));
    }
  }

  /** How `sync` ends. */
  datatype Report =
    | NotAuthenticated                            // RuntimeError: no access token
    | NoNewBookmarks                              // an empty batch
    | Aborted(dir: string)                        // RuntimeError: destination directory missing
    | Done(posts: nat, drafts: nat, skipped: nat) // the summary line

  /** The report and the files a call of `sync` ends with. */
  function SyncOutcome(ctx: Context, accessToken: Option<string>, batch: seq<Item>,
                       files0: map<string, string>): (map<string, string>, Report)
  {
    if accessToken.None? then (files0, NotAuthenticated)
    else if |batch| == 0 then (files0, NoNewBookmarks)
    else
      var p := Run(ctx, batch, files0, |batch|);
      if p.failure.Some? then (p.files, Aborted(p.failure.value))
      else
        RunCountsBounded(ctx, batch, files0, |batch|);
        (p.files, Done(|batch| - p.drafts - p.skipped, p.drafts, p.skipped))
  }

  /**
   * The summary of a completed run: `skipped` counts the incomplete items only,
   * `drafts` the complete untitled ones, and `posts` (the batch size less the other
   * two) the complete titled ones, including those whose file already existed.
   */
  lemma ReportedCounts(ctx: Context, accessToken: Option<string>, batch: seq<Item>, files0: map<string, string>)
    requires SyncOutcome(ctx, accessToken, batch, files0).1.Done?
    ensures var report := SyncOutcome(ctx, accessToken, batch, files0).1;
      report.skipped == CountIncomplete(batch) &&
      report.drafts == CountDrafts(batch) &&
      report.posts == CountPosts(batch)
  {
    RunCounts(ctx, batch, files0, |batch|);
    assert batch[..|batch|] == batch;
    CountsPartition(batch);
  }

  /** With both destination directories in place, a run never aborts. */
  lemma RunCompletes(ctx: Context, batch: seq<Item>, files0: map<string, string>, n: nat)
    requires n <= |batch|
    requires TargetDir(ctx.settings, true) in ctx.dirs && TargetDir(ctx.settings, false) in ctx.dirs
    ensures Run(ctx, batch, files0, n).failure.None?
  {
    SyncBodyNeverFails(ctx);
    LoopCompletes(SyncBody(ctx), batch, Progress(files0, 0, 0, None), n);
  }

  /** The time Pocket recorded for the bookmarks of the scenario below. */
  const Added: Timestamp := DateTime(2021, 3, 14, 15, 9, 26)

  /**
   * A batch of three: an untitled bookmark and a titled one, both with the time
   * they were added, and one without a url. The first sync reports one post, one
   * draft and one skipped item and advances the cursor. Syncing the same batch
   * again, at any later time and whatever the pages say then, with the same
   * configuration and directories, writes nothing and reports the same three
   * counts, since a refused existing file is not counted as skipped.
   */
  lemma ThreeItemScenario(ctx1: Context, ctx2: Context, token: string, files0: map<string, string>)
    requires TargetDir(ctx1.settings, true) in ctx1.dirs && TargetDir(ctx1.settings, false) in ctx1.dirs
    requires ctx2.settings == ctx1.settings && ctx2.dirs == ctx1.dirs
    ensures var batch := [Item(Some("https://a.example/"), Some("1"), Some(""), Some(Added)),
                          Item(Some("https://b.example/"), Some("2"), Some("B"), Some(Added)),
                          Item(None, Some("3"), Some("C"), None)];
      var first := SyncOutcome(ctx1, Some(token), batch, files0);
      var second := SyncOutcome(ctx2, Some(token), batch, first.0);
      first.1 == Done(1, 1, 1) && second == (first.0, Done(1, 1, 1))
  {
    var batch := [Item(Some("https://a.example/"), Some("1"), Some(""), Some(Added)),
                  Item(Some("https://b.example/"), Some("2"), Some("B"), Some(Added)),
                  Item(None, Some("3"), Some("C"), None)];
    RunCompletes(ctx1, batch, files0, |batch|);
    ReportedCounts(ctx1, Some(token), batch, files0);
    var b1, b2 := batch[..1], batch[..2];
    assert b1[..0] == [] && b2[..1] == b1 && batch[..2] == b2;
    assert Complete(batch[0]) && IsDraft(batch[0]);
    assert Complete(batch[1]) && !IsDraft(batch[1]);
    assert !Complete(batch[2]);
    assert CountIncomplete(b1) == 0 && CountDrafts(b1) == 1 && CountPosts(b1) == 0;
    assert CountIncomplete(b2) == 0 && CountDrafts(b2) == 1 && CountPosts(b2) == 1;
    assert CountIncomplete(batch) == 1 && CountDrafts(batch) == 1 && CountPosts(batch) == 1;
    assert SameDayRerun(ctx1, ctx2, batch);
    RerunWritesNothing(ctx1, ctx2, batch, files0);
  }

  /** The persisted configuration; only the cursor changes during a sync. */
  class Config {
    const settings: map<string, string>  // linkpost_post_dir, linkpost_draft_dir when set
    const accessToken: Option<string>    // pocket_access_token
    var pocketSince: Option<nat>         // pocket_since

    constructor (settings: map<string, string>, accessToken: Option<string>, pocketSince: Option<nat>)
      ensures this.settings == settings && this.accessToken == accessToken && this.pocketSince == pocketSince
    {
      this.settings := settings;
      this.accessToken := accessToken;
      this.pocketSince := pocketSince;
    }
  }

  /**
   * One pass of the `for` loop in `sync`, for the `i`-th bookmark: it advances the
   * run by exactly one `Step`, returning the counters and the missing directory
   * when `create_linkpost` raised its `RuntimeError`.
   */
  method SyncItem(config: Config, fs: FileSystem, env: Env, clock: nat -> Timestamp,
                  batch: seq<Item>, i: nat, nSkipped: nat, nDrafts: nat,
                  ghost ctx: Context, ghost files0: map<string, string>)
    returns (skipped: nat, drafts: nat, failure: Option<string>)
    requires i < |batch| && fs.Valid()
    requires ctx == Context(config.settings, fs.dirs, env, clock)
    requires Run(ctx, batch, files0, i) == Progress(fs.files, nSkipped, nDrafts, None)
    modifies fs
    ensures fs.Valid()
    ensures Run(ctx, batch, files0, i + 1) == Progress(fs.files, skipped, drafts, failure)
  {
    var item := batch[i];
    var url := item.givenUrl;
    var itemId := item.resolvedId;
    if !Present(url) || !Present(itemId) {
      RunSkips(ctx, batch, files0, i);
      return nSkipped + 1, nDrafts, None;
    }
    ghost var p := Progress(fs.files, nSkipped, nDrafts, None);
    var title := item.resolvedTitle;
    var isDraft := false;
    drafts := nDrafts;
    if !Present(title) {
      isDraft := true;
      drafts := nDrafts + 1;
    }
    var timestamp := if item.timeAdded.Some? then item.timeAdded.value else clock(i);
    var r := CreateLinkpost(config.settings, fs, env, itemId.value, title, url.value, timestamp, isDraft);
    assert Stamp(ctx, i, item) == timestamp && IsDraft(item) == isDraft;
    RunAttempts(ctx, batch, files0, i, p, r);
    skipped := nSkipped;
    failure := if r.DestinationMissing? then Some(r.dir) else None;
  }

  /**
   * The `for` loop of `sync` over a batch: it ends in the state `Run` gives for the
   * whole batch, stopping at the first `RuntimeError`.
   */
  method SyncBatch(config: Config, fs: FileSystem, env: Env, clock: nat -> Timestamp,
                   batch: seq<Item>, ghost ctx: Context)
    returns (nSkipped: nat, nDrafts: nat, failure: Option<string>)
    requires fs.Valid()
    requires ctx == Context(config.settings, fs.dirs, env, clock)
    modifies fs
    ensures fs.Valid()
    ensures Run(ctx, batch, old(fs.files), |batch|) == Progress(fs.files, nSkipped, nDrafts, failure)
  {
    ghost var files0 := fs.files;
    nSkipped, nDrafts, failure := 0, 0, None;
    var i := 0;
    while i < |batch|
      invariant 0 <= i <= |batch|
      invariant fs.Valid()
      invariant failure.None? && Run(ctx, batch, files0, i) == Progress(fs.files, nSkipped, nDrafts, None)
    {
      nSkipped, nDrafts, failure := SyncItem(config, fs, env, clock, batch, i, nSkipped, nDrafts, ctx, files0);
      if failure.Some? {
        RunHaltsAtFailure(ctx, batch, files0, i + 1, |batch|);
        return;
      }
      i := i + 1;
    }
  }

  /**
   * `sync` for one batch (with `since`, the cursor the feed returned with it). The
   * files end as `SyncOutcome` says, and the cursor is advanced to `since` exactly
   * when the run went through a non-empty batch without a `RuntimeError`.
   */
  method Sync(config: Config, fs: FileSystem, env: Env, clock: nat -> Timestamp,
              batch: seq<Item>, since: nat) returns (report: Report)
    requires fs.Valid()
    modifies config, fs
    ensures fs.Valid()
    ensures (fs.files, report) ==
      SyncOutcome(Context(config.settings, fs.dirs, env, clock), config.accessToken, batch, old(fs.files))
    ensures config.pocketSince == if report.Done? then Some(since) else old(config.pocketSince)
  {
    if config.accessToken.None? {
      return NotAuthenticated;
    }
    var nItems := |batch|;
    if nItems == 0 {
      return NoNewBookmarks;
    }
    ghost var ctx := Context(config.settings, fs.dirs, env, clock);
    var nSkipped, nDrafts, failure := SyncBatch(config, fs, env, clock, batch, ctx);
    if failure.Some? {
      return Aborted(failure.value);
    }
    RunCountsBounded(ctx, batch, old(fs.files), nItems);
    config.pocketSince := Some(since);
    report := Done(nItems - nDrafts - nSkipped, nDrafts, nSkipped);
  }
}

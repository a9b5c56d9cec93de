/**
 Registry sync: one discovery run, its recorded row and checkpoint, and whole sequences of runs that each
 start from the loaded checkpoint.
 */
module Sync {
  import opened Wrappers
  import Domain

  type Id = Domain.Id
  type Registry = Domain.Registry
  type Time = Domain.Time
  type Cursor = Option<string>
  type Document = string

  /** What an exception is reduced to. */
  datatype Fault = Fault(code: string, message: string)

  datatype Page = Page(projects: seq<string>, next: Cursor)

  /** The registry's answers during one run: the page, and for each of its projects in order a listing. */
  datatype Remote = Remote(page: Result<Page, Fault>, listings: seq<Result<seq<Document>, Fault>>) {
    predicate Valid() { page.Ok? ==> |listings| == |page.value.projects| }

    /** The page was found and every one of its projects was listed. */
    predicate FullyListed() { page.Ok? && forall i :: 0 <= i < |listings| ==> listings[i].Ok? }
  }

  datatype Failure = Failure(scope: string, fault: Fault)

  datatype Status = Succeeded | Partial | Failed

  datatype Report = Report(discovered: nat, documents: seq<Document>, next: Cursor, failures: seq<Failure>) {
    function Status(): Status {
      if failures == [] then Succeeded
      else if exists i :: 0 <= i < |failures| && failures[i].scope == "registry" then Failed
      else if discovered > 0 then Partial
      else Failed
    }
  }

  // ----- One run

  /** Documents of the projects that were listed, in page order. */
  function Documents(listings: seq<Result<seq<Document>, Fault>>): seq<Document> {
    if listings == [] then []
    else
      var last := |listings| - 1;
      Documents(listings[..last]) + if listings[last].Ok? then listings[last].value else []
  }

  /** One failure per project that was not listed, in page order. */
  function Failures(projects: seq<string>, listings: seq<Result<seq<Document>, Fault>>): seq<Failure>
    requires |projects| == |listings|
  {
    if listings == [] then []
    else
      var last := |listings| - 1;
      Failures(projects[..last], listings[..last])
      + if listings[last].Err? then [Failure(projects[last], listings[last].error)] else []
  }

  function Listed(listings: seq<Result<seq<Document>, Fault>>): nat {
    if listings == [] then 0
    else Listed(listings[..|listings| - 1]) + if listings[|listings| - 1].Ok? then 1 else 0
  }

  function ReportFor(remote: Remote, checkpoint: Cursor): Report
    requires remote.Valid()
  {
    match remote.page
    case Err(fault) => Report(0, [], checkpoint, [Failure("registry", fault)])
    case Ok(page) =>
      Report(|page.projects|, Documents(remote.listings), page.next, Failures(page.projects, remote.listings))
  }

  lemma {:induction false} EveryProjectCounted(projects: seq<string>, listings: seq<Result<seq<Document>, Fault>>)
    requires |projects| == |listings|
    ensures Listed(listings) + |Failures(projects, listings)| == |projects|
    ensures Failures(projects, listings) == [] <==> forall i :: 0 <= i < |listings| ==> listings[i].Ok?
  {
    if listings != [] {
      var last := |listings| - 1;
      var front := listings[..last];
      EveryProjectCounted(projects[..last], front);
      assert forall i :: 0 <= i < last ==> front[i] == listings[i];
    }
  }

  /** `f` is the failure of some project of the page. */
  ghost predicate FailureOfProject(projects: seq<string>, listings: seq<Result<seq<Document>, Fault>>, i: nat, f: Failure)
    requires |projects| == |listings|
  {
    i < |listings| && listings[i].Err? && f == Failure(projects[i], listings[i].error)
  }

  lemma {:induction false} EveryFailureNamed(projects: seq<string>, listings: seq<Result<seq<Document>, Fault>>, f: Failure)
    requires |projects| == |listings|
    ensures f in Failures(projects, listings) <==> exists i :: FailureOfProject(projects, listings, i, f)
  {
    if listings != [] {
      var last := |listings| - 1;
      var ps, ls := projects[..last], listings[..last];
      EveryFailureNamed(ps, ls, f);
      assert forall i: nat :: i < last ==> (FailureOfProject(ps, ls, i, f) <==> FailureOfProject(projects, listings, i, f));
      assert f in Failures(projects, listings) <==> f in Failures(ps, ls) || FailureOfProject(projects, listings, last, f);
    }
  }

  lemma {:induction false} DocumentsOfListed(listings: seq<Result<seq<Document>, Fault>>, d: Document)
    ensures d in Documents(listings) <==> exists i :: 0 <= i < |listings| && listings[i].Ok? && d in listings[i].value
  {
    if listings != [] {
      var last := |listings| - 1;
      var front := listings[..last];
      DocumentsOfListed(front, d);
      assert forall i :: 0 <= i < last ==> front[i] == listings[i];
      if listings[last].Ok? && d in listings[last].value { assert d in Documents(listings); }
    }
  }

  /** After a successful discovery every project of the page is either listed or a failure. */
  lemma ListedPlusFailedIsDiscovered(remote: Remote, checkpoint: Cursor)
    requires remote.Valid() && remote.page.Ok?
    ensures var report := ReportFor(remote, checkpoint);
      && Listed(remote.listings) + |report.failures| == report.discovered == |remote.page.value.projects|
      && (report.failures == [] <==> remote.FullyListed())
  {
    EveryProjectCounted(remote.page.value.projects, remote.listings);
  }

  /** A project that cannot be listed and whose identifier is the word the report uses for the registry. */
  predicate NamedRegistry(remote: Remote)
    requires remote.Valid()
  {
    remote.page.Ok? && exists i :: 0 <= i < |remote.listings| && remote.listings[i].Err? && remote.page.value.projects[i] == "registry"
  }

  /**
   What a status says: success is a fully listed page, and failure is a failed discovery - or a failed
   project that happens to be called "registry".
   */
  lemma StatusMeans(remote: Remote, checkpoint: Cursor)
    requires remote.Valid()
    ensures var status := ReportFor(remote, checkpoint).Status();
      && (status.Succeeded? <==> remote.FullyListed())
      && (status.Failed? <==> remote.page.Err? || NamedRegistry(remote))
      && (status.Partial? <==> remote.page.Ok? && !remote.FullyListed() && !NamedRegistry(remote))
  {
    var report := ReportFor(remote, checkpoint);
    if remote.page.Err? {
      assert report.failures[0].scope == "registry";
    } else {
      var projects := remote.page.value.projects;
      EveryProjectCounted(projects, remote.listings);
      hide Failures;
      if NamedRegistry(remote) {
        var i :| 0 <= i < |remote.listings| && remote.listings[i].Err? && projects[i] == "registry";
        var f := Failure(projects[i], remote.listings[i].error);
        EveryFailureNamed(projects, remote.listings, f);
        assert FailureOfProject(projects, remote.listings, i, f);
        var k :| 0 <= k < |report.failures| && report.failures[k] == f;
      } else {
        forall k | 0 <= k < |report.failures|
          ensures report.failures[k].scope != "registry"
        {
          EveryFailureNamed(projects, remote.listings, report.failures[k]);
          assert report.failures[k] in report.failures;
          var i :| FailureOfProject(projects, remote.listings, i, report.failures[k]);
        }
      }
    }
  }

  /** A page with one project called "registry" that cannot be listed, and one that can: a failed run, not a partial one. */
  lemma ProjectNamedRegistryFails(fault: Fault)
    ensures var remote := Remote(Ok(Page(["registry", "VCS1"], None)), [Err(fault), Ok(["pdd"])]);
      && remote.Valid() && remote.page.Ok? && Listed(remote.listings) == 1
      && ReportFor(remote, None).Status() == Failed
      && ReportFor(remote.(page := Ok(Page(["VCS2", "VCS1"], None))), None).Status() == Partial
  {
    var listings := [Err(fault), Ok(["pdd"])];
    var named, other := Remote(Ok(Page(["registry", "VCS1"], None)), listings), Remote(Ok(Page(["VCS2", "VCS1"], None)), listings);
    assert listings[..1] == [listings[0]];
    assert Listed(listings[..1]) == 0;
    assert named.listings[0].Err? && named.page.value.projects[0] == "registry";
    assert NamedRegistry(named);
    assert |"VCS2"| != |"registry"|;
    assert !NamedRegistry(other);
    assert !other.listings[0].Ok?;
    StatusMeans(named, None);
    StatusMeans(other, None);
    hide ReportFor;
  }

  /** Page order: the answer for the first project comes first. */
  lemma {:induction false} DocumentsInPageOrder(first: Result<seq<Document>, Fault>, rest: seq<Result<seq<Document>, Fault>>)
    ensures Documents([]) == []
    ensures Documents([first] + rest) == (if first.Ok? then first.value else []) + Documents(rest)
  {
    var all := [first] + rest;
    if rest == [] {
      assert all == [first] && all[..0] == [];
    } else {
      assert all[..|all| - 1] == [first] + rest[..|rest| - 1];
      DocumentsInPageOrder(first, rest[..|rest| - 1]);
    }
  }

  lemma {:induction false} FailuresInPageOrder(
    project: string, projects: seq<string>, first: Result<seq<Document>, Fault>, rest: seq<Result<seq<Document>, Fault>>)
    requires |projects| == |rest|
    ensures Failures([], []) == []
    ensures Failures([project] + projects, [first] + rest) ==
      (if first.Err? then [Failure(project, first.error)] else []) + Failures(projects, rest)
  {
    var ps, all := [project] + projects, [first] + rest;
    if rest == [] {
      assert all == [first] && ps == [project] && all[..0] == [] && ps[..0] == [];
    } else {
      assert all[..|all| - 1] == [first] + rest[..|rest| - 1] && ps[..|ps| - 1] == [project] + projects[..|projects| - 1];
      FailuresInPageOrder(project, projects[..|projects| - 1], first, rest[..|rest| - 1]);
    }
  }

  // ----- What is stored

  datatype RunRow = RunRow(
    id: Id, registry: Registry, before: Cursor, after: Cursor, status: Status, projects: nat, documents: nat,
    failures: seq<Failure>, startedAt: Time, finishedAt: Time)

  datatype Checkpoint = Checkpoint(cursor: Cursor, lastRun: Id, status: Status, updatedAt: Time)

  datatype Tables = Tables(runs: seq<RunRow>, checkpoints: map<Registry, Checkpoint>)

  function Loaded(t: Tables, registry: Registry): Cursor {
    if registry in t.checkpoints then t.checkpoints[registry].cursor else None
  }

  /** A page with failures must be replayed from its previous cursor. */
  function RowFor(id: Id, registry: Registry, before: Cursor, report: Report, startedAt: Time, finishedAt: Option<Time>): RunRow {
    RunRow(id, registry, before, if report.failures == [] then report.next else before, report.Status(),
           report.discovered, |report.documents|, report.failures, startedAt,
           if finishedAt.Some? then finishedAt.value else startedAt)
  }

  function Recorded(t: Tables, row: RunRow): Tables {
    Tables(t.runs + [row], t.checkpoints[row.registry := Checkpoint(row.after, row.id, row.status, row.finishedAt)])
  }

  class SyncRepository {
    var runs: seq<RunRow>
    var checkpoints: map<Registry, Checkpoint>

    ghost function Contents(): Tables
      reads this
    {
      Tables(runs, checkpoints)
    }

    constructor ()
      ensures Contents() == Tables([], map[])
    {
      runs, checkpoints := [], map[];
    }

    method LoadCheckpoint(registry: Registry) returns (cursor: Cursor)
      ensures cursor == Loaded(Contents(), registry)
    {
      cursor := if registry in checkpoints then checkpoints[registry].cursor else None;
    }

    /** The run row, then the checkpoint row in place of the old one, in one transaction. */
    method RecordRun(id: Id, registry: Registry, before: Cursor, report: Report, startedAt: Time, finishedAt: Option<Time>)
      returns (row: RunRow)
      modifies this
      ensures row == RowFor(id, registry, before, report, startedAt, finishedAt)
      ensures Contents() == Recorded(old(Contents()), row)
    {
      var finished := if finishedAt.Some? then finishedAt.value else startedAt;
      var after := if report.failures == [] then report.next else before;
      row := RunRow(id, registry, before, after, report.Status(), report.discovered, |report.documents|, report.failures,
                    startedAt, finished);
      runs := runs + [row];
      checkpoints := checkpoints - {registry};
      checkpoints := checkpoints[registry := Checkpoint(row.after, row.id, row.status, row.finishedAt)];
      assert checkpoints == old(checkpoints)[registry := Checkpoint(row.after, row.id, row.status, row.finishedAt)];
    }
  }

  /** `SyncService.run`: list every project of the page, one failure never stops the next project. */
  method RunSync(
    remote: Remote, registry: Registry, checkpoint: Cursor, repository: SyncRepository?, id: Id, startedAt: Time,
    finishedAt: Option<Time>) returns (report: Report)
    requires remote.Valid()
    modifies repository
    ensures report == ReportFor(remote, checkpoint)
    ensures repository != null ==>
      repository.Contents() == Recorded(old(repository.Contents()), RowFor(id, registry, checkpoint, report, startedAt, finishedAt))
  {
    if remote.page.Err? {
      report := Report(0, [], checkpoint, [Failure("registry", remote.page.error)]);
    } else {
      var page := remote.page.value;
      var documents: seq<Document>, failures: seq<Failure> := [], [];
      for i := 0 to |page.projects|
        invariant documents == Documents(remote.listings[..i])
        invariant failures == Failures(page.projects[..i], remote.listings[..i])
        invariant repository != null ==> unchanged(repository)
      {
        assert remote.listings[..i + 1][..i] == remote.listings[..i] && page.projects[..i + 1][..i] == page.projects[..i];
        match remote.listings[i]
        case Ok(listed) => documents := documents + listed;
        case Err(fault) => failures := failures + [Failure(page.projects[i], fault)];
      }
      assert remote.listings[..|page.projects|] == remote.listings && page.projects[..|page.projects|] == page.projects;
      report := Report(|page.projects|, documents, page.next, failures);
    }
    if repository != null {
      var _ := repository.RecordRun(id, registry, checkpoint, report, startedAt, finishedAt);
    }
  }

  // ----- Whole sequences of runs

  datatype Event = Event(id: Id, registry: Registry, remote: Remote, startedAt: Time, finishedAt: Option<Time>)

  function RowOf(t: Tables, e: Event): RunRow
    requires e.remote.Valid()
  {
    var before := Loaded(t, e.registry);
    RowFor(e.id, e.registry, before, ReportFor(e.remote, before), e.startedAt, e.finishedAt)
  }

  predicate ValidEvents(events: seq<Event>) { forall i :: 0 <= i < |events| ==> events[i].remote.Valid() }

  /** Each run starts from the checkpoint it loads; run `i` leaves row `i`. */
  function Run(events: seq<Event>): (t: Tables)
    requires ValidEvents(events)
    ensures |t.runs| == |events|
  {
    if events == [] then Tables([], map[])
    else
      var t := Run(events[..|events| - 1]);
      Recorded(t, RowOf(t, events[|events| - 1]))
  }

  /** `after` of the latest row of `registry`; nothing if it has none. */
  function LastAfter(rows: seq<RunRow>, registry: Registry): Cursor {
    if rows == [] then None
    else if rows[|rows| - 1].registry == registry then rows[|rows| - 1].after
    else LastAfter(rows[..|rows| - 1], registry)
  }

  /** Every row starts where the registry's previous row ended, and the checkpoint is where the last one ended. */
  ghost predicate Chained(t: Tables) {
    && (forall i :: 0 <= i < |t.runs| ==> t.runs[i].before == LastAfter(t.runs[..i], t.runs[i].registry))
    && (forall r :: Loaded(t, r) == LastAfter(t.runs, r))
  }

  /** Recording keeps the chain exactly when the run started from the cursor that is stored now. */
  lemma ChainKeptIff(t: Tables, row: RunRow)
    requires Chained(t)
    ensures Chained(Recorded(t, row)) <==> row.before == Loaded(t, row.registry)
  {
    var u, n := Recorded(t, row), |t.runs|;
    assert u.runs[..n] == t.runs && u.runs[n] == row;
    assert forall i :: 0 <= i < n ==> u.runs[..i] == t.runs[..i] && u.runs[i] == t.runs[i];
    forall r
      ensures Loaded(u, r) == LastAfter(u.runs, r)
    {
      assert LastAfter(u.runs, r) == if r == row.registry then row.after else LastAfter(t.runs, r);
    }
  }

  lemma {:induction false} RunsChain(events: seq<Event>)
    requires ValidEvents(events)
    ensures Chained(Run(events))
  {
    if events != [] {
      var last := |events| - 1;
      RunsChain(events[..last]);
      ChainKeptIff(Run(events[..last]), RowOf(Run(events[..last]), events[last]));
    }
  }

  /**
   The cursor of a row moves only if the run found the page and listed every project on it; its counts are
   those of the page, of the listed documents and of the projects that were not listed.
   */
  lemma {:induction false} CursorMovesOnlyWhenListed(events: seq<Event>, i: nat)
    requires ValidEvents(events) && i < |events|
    ensures var row := Run(events).runs[i];
      && row.id == events[i].id && row.registry == events[i].registry && row.startedAt == events[i].startedAt
      && row.finishedAt == (if events[i].finishedAt.Some? then events[i].finishedAt.value else events[i].startedAt)
      && (row.status.Succeeded? <==> events[i].remote.FullyListed())
      && (row.failures == [] <==> events[i].remote.FullyListed())
      && row.after == (if events[i].remote.FullyListed() then events[i].remote.page.value.next else row.before)
      && (events[i].remote.page.Ok? ==>
            && row.projects == |events[i].remote.page.value.projects| == Listed(events[i].remote.listings) + |row.failures|
            && row.documents == |Documents(events[i].remote.listings)|)
      && (events[i].remote.page.Err? ==>
            row.projects == row.documents == 0 && row.failures == [Failure("registry", events[i].remote.page.error)])
  {
    var last := |events| - 1;
    if i < last {
      CursorMovesOnlyWhenListed(events[..last], i);
    } else {
      var before := Loaded(Run(events[..last]), events[last].registry);
      StatusMeans(events[last].remote, before);
      if events[last].remote.page.Ok? { ListedPlusFailedIsDiscovered(events[last].remote, before); }
    }
  }

  /** A page the cursor went past, and the answers that let it pass. */
  datatype Passed = Passed(start: Cursor, remote: Remote)

  function PassedPages(events: seq<Event>, registry: Registry): seq<Passed>
    requires ValidEvents(events)
  {
    if events == [] then []
    else
      var last := |events| - 1;
      var e := events[last];
      PassedPages(events[..last], registry)
      + if e.registry == registry && e.remote.FullyListed() then [Passed(Loaded(Run(events[..last]), registry), e.remote)] else []
  }

  lemma LoadedAfter(t: Tables, e: Event, registry: Registry)
    requires e.remote.Valid()
    ensures Loaded(Recorded(t, RowOf(t, e)), registry) ==
      if e.registry == registry && e.remote.FullyListed() then e.remote.page.value.next else Loaded(t, registry)
    ensures e.remote.FullyListed() ==> e.remote.page.Ok?
  {
    StatusMeans(e.remote, Loaded(t, e.registry));
  }

  /**
   An unbroken path from the start of a registry to `cursor`, over pages that were found and whose every
   project was listed.
   */
  ghost predicate Path(pages: seq<Passed>, cursor: Cursor) {
    && (forall k :: 0 <= k < |pages| ==> pages[k].remote.FullyListed())
    && (forall k :: 0 <= k < |pages| ==> StartsAtEnd(pages, k))
    && cursor == if pages == [] then None else pages[|pages| - 1].remote.page.value.next
  }

  /** Page `k` was asked for with the cursor the page before it gave; the first with none. */
  ghost predicate StartsAtEnd(pages: seq<Passed>, k: nat)
    requires k < |pages|
  {
    if k == 0 then pages[k].start == None
    else pages[k - 1].remote.page.Ok? && pages[k].start == pages[k - 1].remote.page.value.next
  }

  lemma PathExtends(pages: seq<Passed>, p: Passed)
    requires Path(pages, p.start) && p.remote.FullyListed()
    ensures Path(pages + [p], p.remote.page.value.next)
  {
    var longer := pages + [p];
    forall k | 0 <= k < |longer|
      ensures longer[k].remote.FullyListed()
      ensures StartsAtEnd(longer, k)
    {
      if k > 0 { assert longer[k - 1] == pages[k - 1] && pages[k - 1].remote.FullyListed(); }
      if k < |pages| {
        assert longer[k] == pages[k] && StartsAtEnd(pages, k);
      }
    }
  }

  /** The stored cursor is the end of a path of fully listed pages. */
  lemma {:induction false} CursorIsPathOfListedPages(events: seq<Event>, registry: Registry)
    requires ValidEvents(events)
    ensures Path(PassedPages(events, registry), Loaded(Run(events), registry))
  {
    if events == [] {
      assert Path([], None);
    } else {
      var last := |events| - 1;
      var t, e := Run(events[..last]), events[last];
      CursorIsPathOfListedPages(events[..last], registry);
      LoadedAfter(t, e, registry);
      hide Recorded, Loaded, RowOf, Path, Remote.FullyListed;
      if e.registry == registry && e.remote.FullyListed() {
        PathExtends(PassedPages(events[..last], registry), Passed(Loaded(t, registry), e.remote));
      } else {
        assert PassedPages(events, registry) == PassedPages(events[..last], registry);
      }
    }
  }

  // ----- Overlapping runs

  /**
   Two runs of one registry that both load the checkpoint before either records: the failing one, recorded
   last, moves the cursor back over the page the other has passed.
   */
  lemma OverlapMovesCursorBack(t: Tables, good: Event, bad: Event)
    requires good.remote.Valid() && bad.remote.Valid() && good.registry == bad.registry
    requires good.remote.FullyListed() && !bad.remote.FullyListed()
    requires good.remote.page.value.next != Loaded(t, good.registry)
    ensures var first := Recorded(t, RowOf(t, good));
      var second := Recorded(first, RowOf(t, bad));
      && Loaded(first, good.registry) == good.remote.page.value.next
      && Loaded(second, good.registry) == Loaded(t, good.registry) != Loaded(first, good.registry)
      && !Chained(second)
  {
    StatusMeans(good.remote, Loaded(t, good.registry));
    StatusMeans(bad.remote, Loaded(t, bad.registry));
    var first := Recorded(t, RowOf(t, good));
    var second := Recorded(first, RowOf(t, bad));
    var n := |t.runs| + 1;
    assert second.runs[..n] == first.runs && second.runs[n] == RowOf(t, bad);
    assert first.runs[n - 1] == RowOf(t, good);
  }

  /** The latest row of `registry`, if it has one. */
  function LastRow(rows: seq<RunRow>, registry: Registry): Option<RunRow> {
    if rows == [] then None
    else if rows[|rows| - 1].registry == registry then Some(rows[|rows| - 1])
    else LastRow(rows[..|rows| - 1], registry)
  }

  /** A checkpoint is the copy of its registry's latest row. */
  lemma {:induction false} CheckpointIsLastRow(events: seq<Event>, registry: Registry)
    requires ValidEvents(events)
    ensures var t := Run(events);
      match LastRow(t.runs, registry)
      case None => registry !in t.checkpoints
      case Some(row) =>
        registry in t.checkpoints && t.checkpoints[registry] == Checkpoint(row.after, row.id, row.status, row.finishedAt)
  {
    if events != [] {
      var last := |events| - 1;
      CheckpointIsLastRow(events[..last], registry);
      var before := Run(events[..last]);
      var row := RowOf(before, events[last]);
      assert Run(events).runs[..|before.runs|] == before.runs;
      hide RowOf;
    }
  }
}

/** CronScheduler: its table of registrations agrees with the job store. */
module CronScheduler {
  import opened CronStore

  /** The table and the cron library's live registrations are in one-to-one correspondence;
      registration numbers are never used twice. */
  predicate Paired(entries: map<string, nat>, registered: map<nat, string>, next: nat) {
    && (forall id :: id in entries ==> entries[id] in registered && registered[entries[id]] == id)
    && (forall e :: e in registered ==> e < next && registered[e] in entries && entries[registered[e]] == e)
  }

  lemma PairedRemove(entries: map<string, nat>, registered: map<nat, string>, next: nat, id: string)
    requires Paired(entries, registered, next) && id in entries
    ensures Paired(entries - {id}, registered - {entries[id]}, next)
  {
  }

  lemma PairedAdd(entries: map<string, nat>, registered: map<nat, string>, next: nat, id: string)
    requires Paired(entries, registered, next)
    ensures var live := if id in entries then registered - {entries[id]} else registered;
            Paired(entries[id := next], live[next := id], next + 1)
  {
  }

  /** What UpdateJob checks before it changes anything. */
  function CheckUpdate(parses: string -> bool, field: string, value: Value): Status {
    if field == "cron_expr" && !value.Str? then ExprNotString
    else if field == "cron_expr" && !parses(value.s) then InvalidExpr
    else if field == "mode" && value.Str? && value.s != "" && value.s !in MODES then InvalidMode
    else if field == "session_mode" && value.Str? && value.s != "" && !KnownSessionMode(value.s) then InvalidSessionMode
    else if field == "enabled" && !value.Bool? then EnabledNotBool
    else Ok
  }

  /** The job should fire: it is enabled and has a schedule. */
  predicate Due(data: JobData, parses: string -> bool) {
    data.enabled && parses(data.cronExpr)
  }

  function DueIds(view: seq<Stored>, parses: string -> bool): set<string> {
    set k | 0 <= k < |view| && Due(view[k].data, parses) :: view[k].id
  }

  predicate UniqueView(view: seq<Stored>) {
    forall i, j :: 0 <= i < j < |view| ==> view[i].id != view[j].id
  }

  function IfDue(id: string, data: JobData, parses: string -> bool): set<string> {
    if Due(data, parses) then {id} else {}
  }

  predicate Agree(ids: set<string>, due: set<string>, all: bool) {
    ids <= due && (all ==> ids == due)
  }

  lemma DueAt(view: seq<Stored>, parses: string -> bool, k: nat)
    requires UniqueView(view) && k < |view|
    ensures view[k].id in DueIds(view, parses) <==> Due(view[k].data, parses)
  {
    hide Due;
  }

  lemma DueAbsent(view: seq<Stored>, parses: string -> bool, id: string)
    requires forall i :: 0 <= i < |view| ==> view[i].id != id
    ensures id !in DueIds(view, parses)
  {
    hide Due;
  }

  lemma DueAfterSet(view: seq<Stored>, parses: string -> bool, k: nat, data: JobData)
    requires UniqueView(view) && k < |view|
    ensures var id := view[k].id;
            DueIds(view[k := Stored(id, data)], parses) == DueIds(view, parses) - {id} + IfDue(id, data, parses)
  {
    hide Due;
    var id, after := view[k].id, view[k := Stored(view[k].id, data)];
    DueAt(after, parses, k);
    forall other | other != id ensures other in DueIds(after, parses) <==> other in DueIds(view, parses) {
      if other in DueIds(view, parses) {
        var i :| 0 <= i < |view| && Due(view[i].data, parses) && view[i].id == other;
        assert after[i] == view[i];
      }
      if other in DueIds(after, parses) {
        var i :| 0 <= i < |after| && Due(after[i].data, parses) && after[i].id == other;
        assert after[i] == view[i];
      }
    }
  }

  lemma DueAfterAdd(view: seq<Stored>, parses: string -> bool, job: Stored)
    ensures DueIds(view + [job], parses) == DueIds(view, parses) + IfDue(job.id, job.data, parses)
  {
    hide Due;
    var after := view + [job];
    forall k | 0 <= k < |view| && Due(view[k].data, parses) ensures view[k].id in DueIds(after, parses) {
      assert after[k] == view[k];
    }
    assert after[|view|] == job;
  }

  lemma DueAfterRemove(view: seq<Stored>, parses: string -> bool, k: nat)
    requires UniqueView(view) && k < |view|
    ensures DueIds(view[..k] + view[k + 1..], parses) == DueIds(view, parses) - {view[k].id}
  {
    hide Due;
    var after := view[..k] + view[k + 1..];
    forall i | 0 <= i < |view| && i != k && Due(view[i].data, parses) ensures view[i].id in DueIds(after, parses) {
      assert view[i] == if i < k then after[i] else after[i - 1];
    }
    forall i | 0 <= i < |after| ensures after[i] in view && after[i].id != view[k].id {
      assert after[i] == if i < k then view[i] else view[i + 1];
    }
  }

  predicate NeedsReschedule(field: string) {
    field == "cron_expr" || field == "enabled"
  }

  /** The outcome and the new data of the job that UpdateJob finds. */
  function Updated(parses: string -> bool, data: JobData, field: string, value: Value): (Status, JobData) {
    var check := CheckUpdate(parses, field, value);
    if check != Ok then (check, data)
    else if Refuses(data, field, value) then (FieldNotUpdated, data)
    else
      var changed := SetField(data, field, value).value;
      (if NeedsReschedule(field) && changed.enabled && !parses(changed.cronExpr) then RescheduleFailed else Ok, changed)
  }

  /** The update changes a schedule under another spelling of its field, so past the checks and without
      a new registration, and the job becomes due or stops being due by it. */
  predicate Strays(parses: string -> bool, data: JobData, field: string, value: Value) {
    SpellsExpr(field) && value.Str? && data.enabled && parses(value.s) != parses(data.cronExpr)
  }

  class CronScheduler {
    const store: CronStore
    /** cron.ParseStandard succeeds; AddFunc uses the same parser. */
    const parses: string -> bool
    var entries: map<string, nat>
    /** The cron library: what is registered, by registration number. */
    var registered: map<nat, string>
    var nextEntry: nat
    ghost var started: bool

    constructor (store: CronStore, parses: string -> bool)
      requires UniqueIds(store.jobs)
      ensures this.store == store && this.parses == parses
      ensures Valid() && !started && entries == map[]
    {
      this.store := store;
      this.parses := parses;
      entries := map[];
      registered := map[];
      nextEntry := 1;
      started := false;
    }

    ghost function Wanted(): set<string>
      reads store, store.jobs
    {
      DueIds(store.View(), parses)
    }

    /** Only jobs that are stored and due have an entry; after Start all of them do. */
    ghost predicate Valid()
      reads this, store, store.jobs
    {
      && UniqueIds(store.jobs)
      && Paired(entries, registered, nextEntry)
      && Agree(entries.Keys, Wanted(), started)
    }

    lemma ViewIsUnique()
      requires UniqueIds(store.jobs)
      ensures UniqueView(store.View()) && DistinctJobs(store.jobs)
    {
    }

    /** After Start an id has an entry exactly when its job is stored, enabled and has a schedule. */
    lemma EntryIffDue(id: string)
      requires Valid() && started
      ensures var k := Find(store.jobs, id);
              id in entries <==> k < |store.jobs| && store.jobs[k].data.enabled && parses(store.jobs[k].data.cronExpr)
    {
      hide Paired;
      var k := Find(store.jobs, id);
      if k < |store.jobs| {
        DueAt(store.View(), parses, k);
      } else {
        DueAbsent(store.View(), parses, id);
      }
    }

    /** An id with an entry has one live registration, and every live one belongs to such an id. */
    lemma OneRegistrationEach(id: string)
      requires Valid()
      ensures id in entries ==> forall e :: e in registered && registered[e] == id <==> e == entries[id]
      ensures id !in entries ==> forall e :: e in registered ==> registered[e] != id
    {
      assert Paired(entries, registered, nextEntry);
    }

    /** Removing the entry of an id, as four of the operations do. */
    method Unschedule(id: string)
      requires Paired(entries, registered, nextEntry)
      modifies `entries, `registered
      ensures Paired(entries, registered, nextEntry)
      ensures entries == old(entries) - {id}
    {
      if id in entries {
        PairedRemove(entries, registered, nextEntry, id);
        registered := registered - {entries[id]};
        entries := entries - {id};
      }
    }

    /** The old registration of the job is removed before the new one is tried. If its expression
      does not parse, an entry it had before goes stale; else table and registrations stay paired. */
    method ScheduleJob(job: CronJob) returns (ok: bool)
      requires Paired(entries, registered, nextEntry)
      modifies `entries, `registered, `nextEntry
      ensures ok == parses(job.data.cronExpr)
      ensures ok || job.id !in old(entries) ==> Paired(entries, registered, nextEntry)
      ensures entries == if ok then old(entries)[job.id := old(nextEntry)] else old(entries)
      ensures !ok ==> nextEntry == old(nextEntry)
      ensures !ok ==>
        registered == if job.id in old(entries) then old(registered) - {old(entries)[job.id]} else old(registered)
    {
      PairedAdd(entries, registered, nextEntry, job.id);
      if job.id in entries {
        registered := registered - {entries[job.id]};
      }
      if !parses(job.data.cronExpr) {
        return false;
      }
      var entryID := nextEntry;
      nextEntry := nextEntry + 1;
      registered := registered[entryID := job.id];
      entries := entries[job.id := entryID];
      ok := true;
    }

    /** Jobs that do not parse are only logged. */
    method Start()
      requires Valid()
      modifies this
      ensures Valid() && started
    {
      hide Paired, DueIds;
      ghost var view := store.View();
      for i := 0 to |store.jobs|
        invariant Valid() && started == old(started) && store.View() == view
        invariant forall k :: 0 <= k < i && Due(view[k].data, parses) ==> view[k].id in entries
      {
        var job := store.jobs[i];
        DueAt(view, parses, i);
        if job.data.enabled {
          var _ := ScheduleJob(job);
        }
      }
      EveryDueIn(view, parses, entries.Keys);
      started := true;
    }

    /** Ids are drawn at random; the agreement of table and store is kept if the new one is unused. */
    method AddJob(job: CronJob) returns (status: Status)
      requires Valid()
      modifies this, store, job
      ensures Find(old(store.jobs), job.id) == |old(store.jobs)| ==> Valid()
      ensures started == old(started)
      ensures status == if Validate(old(job.data)) != Ok then Validate(old(job.data))
                        else if !parses(old(job.data).cronExpr) then InvalidExpr
                        else Ok
      ensures store.jobs == if status == Ok then old(store.jobs) + [job] else old(store.jobs)
      ensures job.data == if Validate(old(job.data)) != Ok then old(job.data)
                          else old(job.data.(sessionMode := NormalizeSessionMode(job.data.sessionMode)))
      ensures forall j :: j in old(store.jobs) && j != job ==> j.data == old(j.data)
      ensures status != Ok ==> entries == old(entries)
      ensures status == Ok ==> entries.Keys == old(entries.Keys) + if job.data.enabled then {job.id} else {}
      ensures status == Ok ==> Paired(entries, registered, nextEntry)
    {
      hide store.View, Find, Paired, NormalizeSessionMode, Validate, DueIds;
      ghost var view, unused := store.View(), Find(store.jobs, job.id) == |store.jobs|;
      if unused {
        DueAbsent(view, parses, job.id);
      }
      status := Validate(job.data);
      if status != Ok {
        return;
      }
      job.data := job.data.(sessionMode := NormalizeSessionMode(job.data.sessionMode));
      assert unused ==> store.View() == view;
      if !parses(job.data.cronExpr) {
        return InvalidExpr;
      }
      store.Add(job);
      DueAfterAdd(view, parses, Stored(job.id, job.data));
      if job.data.enabled {
        var ok := ScheduleJob(job);
        status := if ok then Ok else InvalidExpr;
      }
    }

    method RemoveJob(id: string) returns (found: bool)
      requires Valid()
      modifies this, store
      ensures Valid() && started == old(started)
      ensures entries == old(entries) - {id}
      ensures var k := Find(old(store.jobs), id);
              && found == (k < |old(store.jobs)|)
              && store.jobs == if found then old(store.jobs)[..k] + old(store.jobs)[k + 1..] else old(store.jobs)
    {
      hide store.View, Find, Paired, DueIds;
      ghost var view, k := store.View(), Find(store.jobs, id);
      Unschedule(id);
      found := store.Remove(id);
      if found {
        DueAfterRemove(view, parses, k);
      } else {
        DueAbsent(view, parses, id);
      }
    }

    method EnableJob(id: string) returns (status: Status)
      requires Valid()
      modifies this, store.jobs
      ensures Valid() && started == old(started)
      ensures var k := Find(store.jobs, id);
              if k == |store.jobs| then
                status == NotFound && entries == old(entries) && store.View() == old(store.View())
              else
                && var data := old(store.View())[k].data.(enabled := true);
                && store.View() == old(store.View())[k := Stored(id, data)]
                && status == (if parses(data.cronExpr) then Ok else InvalidExpr)
                && entries.Keys == old(entries.Keys) + if status == Ok then {id} else {}
    {
      hide store.View, Find, Paired, UniqueIds, UniqueView, DueIds, Agree;
      ghost var view, k := store.View(), Find(store.jobs, id);
      ViewIsUnique();
      var found := store.SetEnabled(id, true);
      if !found {
        return NotFound;
      }
      EnabledKeys(view, parses, k, entries.Keys, started);
      status := ScheduleFound(id);
    }

    /** The end of EnableJob: fetch the job again and schedule it. */
    method ScheduleFound(id: string) returns (status: Status)
      requires Paired(entries, registered, nextEntry) && Find(store.jobs, id) < |store.jobs|
      requires id in entries ==> parses(store.View()[Find(store.jobs, id)].data.cronExpr)
      modifies `entries, `registered, `nextEntry
      ensures Paired(entries, registered, nextEntry)
      ensures var data := store.View()[Find(store.jobs, id)].data;
              && status == (if parses(data.cronExpr) then Ok else InvalidExpr)
              && entries.Keys == old(entries.Keys) + if parses(data.cronExpr) then {id} else {}
    {
      hide Paired;
      status := Ok;
      var job := store.Get(id);
      if job != null {
        var ok := ScheduleJob(job);
        status := if ok then Ok else InvalidExpr;
      }
    }

    method DisableJob(id: string) returns (status: Status)
      requires Valid()
      modifies this, store.jobs
      ensures Valid() && started == old(started)
      ensures var k := Find(store.jobs, id);
              if k == |store.jobs| then
                status == NotFound && entries == old(entries) && store.View() == old(store.View())
              else
                && var data := old(store.View())[k].data.(enabled := false);
                && store.View() == old(store.View())[k := Stored(id, data)]
                && status == Ok && entries == old(entries) - {id}
    {
      hide store.View, Find, Paired, UniqueIds, UniqueView, DueIds;
      ghost var view, k := store.View(), Find(store.jobs, id);
      ViewIsUnique();
      var found := store.SetEnabled(id, false);
      if !found {
        return NotFound;
      }
      DueAfterSet(view, parses, k, view[k].data.(enabled := false));
      Unschedule(id);
      status := Ok;
    }

    method UpdateJob(id: string, field: string, value: Value) returns (status: Status)
      requires Valid()
      modifies this, store.jobs
      ensures var strays := Find(store.jobs, id) < |store.jobs| &&
                Strays(parses, old(store.View()[Find(store.jobs, id)].data), field, value);
              && (!strays ==> Valid())
              && (strays ==> entries == old(entries) && registered == old(registered) && (started ==> !Valid()))
      ensures started == old(started)
      ensures var k := Find(store.jobs, id);
              if k == |store.jobs| then
                status == NotFound && entries == old(entries) && store.View() == old(store.View())
              else
                && var (expected, data) := Updated(parses, old(store.View())[k].data, field, value);
                && status == expected && store.View() == old(store.View())[k := Stored(id, data)]
                && entries.Keys - {id} == old(entries.Keys) - {id}
    {
      hide store.View, Find, Paired, UniqueIds, UniqueView, DueIds, Due, SetField, CheckUpdate, NeedsReschedule,
           Refuses, Strays;
      ghost var view, k := store.View(), Find(store.jobs, id);
      ViewIsUnique();
      var job := store.Get(id);
      if job == null {
        return NotFound;
      }
      assert view[k := Stored(id, view[k].data)] == view;
      if Strays(parses, view[k].data, field, value) {
        StraysIsPlain(parses, view[k].data, field, value);
      }
      status := CheckUpdate(parses, field, value);
      if status != Ok {
        return;
      }
      if NeedsReschedule(field) {
        status := UpdateAndReschedule(id, field, value);
        return;
      }
      status := UpdateOnly(id, field, value);
    }

    /** The rest of UpdateJob when no reschedule is needed. */
    method UpdateOnly(id: string, field: string, value: Value) returns (status: Status)
      requires Valid() && Find(store.jobs, id) < |store.jobs|
      requires CheckUpdate(parses, field, value) == Ok && !NeedsReschedule(field)
      modifies store.jobs
      ensures var k := Find(store.jobs, id);
              && var (expected, data) := Updated(parses, old(store.View())[k].data, field, value);
              && status == expected && store.View() == old(store.View())[k := Stored(id, data)]
              && (if Strays(parses, old(store.View())[k].data, field, value) then started ==> !Valid() else Valid())
    {
      hide store.View, Find, Paired, UniqueIds, UniqueView, DueIds, Due, SetField, CheckUpdate, NeedsReschedule,
           Refuses, Strays, Updated;
      ghost var view, k := store.View(), Find(store.jobs, id);
      ghost var data := Updated(parses, view[k].data, field, value).1;
      ViewIsUnique();
      UpdatedPlainly(parses, view[k].data, field, value);
      assert view[k := Stored(id, view[k].data)] == view;
      if Strays(parses, view[k].data, field, value) {
        StraysIsPlain(parses, view[k].data, field, value);
      }
      var updated := store.Update(id, field, value);
      if !updated {
        return FieldNotUpdated;
      }
      status := Ok;
      PlainFieldsMatterIff(parses, view[k].data, field, value);
      if Strays(parses, view[k].data, field, value) {
        if started {
          StrayedDisagrees(view, parses, k, data, entries.Keys);
        }
      } else {
        DueAfterPlainSet(view, parses, k, data);
      }
    }

    /** The end of UpdateJob: fetch the updated job again, and schedule it if it is enabled. */
    method ScheduleIfEnabled(id: string) returns (status: Status)
      requires Paired(entries, registered, nextEntry) && id !in entries && Find(store.jobs, id) < |store.jobs|
      modifies `entries, `registered, `nextEntry
      ensures Paired(entries, registered, nextEntry)
      ensures var data := store.View()[Find(store.jobs, id)].data;
              && entries.Keys == old(entries.Keys) + IfDue(id, data, parses)
              && status == if data.enabled && !parses(data.cronExpr) then RescheduleFailed else Ok
    {
      hide Paired;
      status := Ok;
      var updatedJob := store.Get(id);
      if updatedJob != null && updatedJob.data.enabled {
        var ok := ScheduleJob(updatedJob);
        status := if ok then Ok else RescheduleFailed;
      }
    }

    /** The rest of UpdateJob when a reschedule is needed: the entry is removed before the update. */
    method UpdateAndReschedule(id: string, field: string, value: Value) returns (status: Status)
      requires Valid() && Find(store.jobs, id) < |store.jobs|
      requires CheckUpdate(parses, field, value) == Ok && NeedsReschedule(field)
      modifies this, store.jobs
      ensures Valid() && started == old(started)
      ensures var k := Find(store.jobs, id);
              && var (expected, data) := Updated(parses, old(store.View())[k].data, field, value);
              && status == expected && store.View() == old(store.View())[k := Stored(id, data)]
              && entries.Keys - {id} == old(entries.Keys) - {id}
    {
      hide Paired, store.View, Find, Updated, UniqueIds, UniqueView, DueIds, Agree, SetField, CheckUpdate,
           NeedsReschedule, Refuses;
      ghost var view, k := store.View(), Find(store.jobs, id);
      ViewIsUnique();
      RescheduledAreSet(parses, view[k].data, field, value);
      ghost var data := Updated(parses, view[k].data, field, value).1;
      AgreeAfterSet(view, parses, k, data, entries.Keys, started);
      Unschedule(id);
      var updated := store.Update(id, field, value);
      if !updated {
        return FieldNotUpdated;
      }
      assert store.View()[k] == Stored(id, data);
      status := ScheduleIfEnabled(id);
    }

    /** A scheduled run, when nothing comes between its steps. */
    method ExecuteJob(jobID: string) returns (runs: bool)
      ensures var k := Find(store.jobs, jobID);
              runs <==> k < |store.jobs| && store.jobs[k].data.enabled
    {
      var job := store.Get(jobID);
      if job == null {
        return false;
      }
      runs := job.data.enabled;
    }
  }

  lemma EveryDueIn(view: seq<Stored>, parses: string -> bool, ids: set<string>)
    requires forall k :: 0 <= k < |view| && Due(view[k].data, parses) ==> view[k].id in ids
    ensures DueIds(view, parses) <= ids
  {
    hide Due;
  }

  lemma AgreeAfterSet(view: seq<Stored>, parses: string -> bool, k: nat, data: JobData, ids: set<string>, all: bool)
    requires UniqueView(view) && k < |view| && Agree(ids, DueIds(view, parses), all)
    ensures var id := view[k].id;
            Agree(ids - {id} + IfDue(id, data, parses), DueIds(view[k := Stored(id, data)], parses), all)
  {
    hide Due, DueIds;
    DueAfterSet(view, parses, k, data);
  }

  lemma EnabledKeys(view: seq<Stored>, parses: string -> bool, k: nat, ids: set<string>, all: bool)
    requires UniqueView(view) && k < |view| && Agree(ids, DueIds(view, parses), all)
    ensures var id, data := view[k].id, view[k].data.(enabled := true);
            && (id in ids ==> parses(data.cronExpr))
            && Agree(ids + (if parses(data.cronExpr) then {id} else {}), DueIds(view[k := Stored(id, data)], parses),
               all)
  {
    hide DueIds, UniqueView;
    DueAt(view, parses, k);
    DueAfterSet(view, parses, k, view[k].data.(enabled := true));
  }

  lemma DueAfterPlainSet(view: seq<Stored>, parses: string -> bool, k: nat, data: JobData)
    requires UniqueView(view) && k < |view| && Due(data, parses) == Due(view[k].data, parses)
    ensures DueIds(view[k := Stored(view[k].id, data)], parses) == DueIds(view, parses)
  {
    hide Due, DueIds;
    DueAt(view, parses, k);
    DueAfterSet(view, parses, k, data);
  }

  /** An update that registers nothing new changes what is due exactly if it strays. */
  lemma PlainFieldsMatterIff(parses: string -> bool, data: JobData, field: string, value: Value)
    requires !NeedsReschedule(field) && !Refuses(data, field, value)
    requires CheckUpdate(parses, field, value) == Ok
    ensures Due(Updated(parses, data, field, value).1, parses) != Due(data, parses) <==>
            Strays(parses, data, field, value)
  {
    hide SetNamed, SetExported, Exported, SetField, Refuses, CheckUpdate;
    OnlyTwoFieldsMatter(data, field, value);
    if value.Str? {
      NamedText(data, field, value);
    }
  }

  lemma UpdatedPlainly(parses: string -> bool, data: JobData, field: string, value: Value)
    requires CheckUpdate(parses, field, value) == Ok && !NeedsReschedule(field)
    ensures Updated(parses, data, field, value) ==
            if Refuses(data, field, value) then (FieldNotUpdated, data) else (Ok, SetField(data, field, value).value)
  {
    hide SetField, CheckUpdate;
  }

  lemma StraysIsPlain(parses: string -> bool, data: JobData, field: string, value: Value)
    requires Strays(parses, data, field, value)
    ensures !NeedsReschedule(field) && !Refuses(data, field, value) && CheckUpdate(parses, field, value) == Ok
  {
    hide SetNamed, Exported;
    SpellsNoFlag(field);
  }

  lemma StrayedDisagrees(view: seq<Stored>, parses: string -> bool, k: nat, data: JobData, ids: set<string>)
    requires UniqueView(view) && k < |view| && ids == DueIds(view, parses)
    requires Due(data, parses) != Due(view[k].data, parses)
    ensures ids != DueIds(view[k := Stored(view[k].id, data)], parses)
  {
    hide Due, DueIds;
    DueAt(view, parses, k);
    DueAt(view[k := Stored(view[k].id, data)], parses, k);
  }

  /** The checks before the entry is removed guarantee that the update behind it succeeds, and
      that only enabling a job can leave it without an entry. */
  lemma RescheduledAreSet(parses: string -> bool, data: JobData, field: string, value: Value)
    requires CheckUpdate(parses, field, value) == Ok && NeedsReschedule(field)
    ensures !Refuses(data, field, value)
    ensures field == "cron_expr" ==> parses(SetField(data, field, value).value.cronExpr)
    ensures var changed := SetField(data, field, value).value;
            Updated(parses, data, field, value) ==
              (if changed.enabled && !parses(changed.cronExpr) then RescheduleFailed else Ok, changed)
    ensures Updated(parses, data, field, value).0 == RescheduleFailed ==> value == Bool(true) && !parses(data.cronExpr)
  {
  }
}

/** Cron jobs and the store that holds them, in memory. */
module CronStore {
  import opened Text
  import opened Wrappers

  /** The fields of a job that can change; its id and creation time cannot. */
  datatype JobData = JobData(
    project: string, sessionKey: string, cronExpr: string, prompt: string, exec: string, workDir: string,
    description: string, enabled: bool, silent: Option<bool>, mute: bool, sessionMode: string, mode: string,
    timeoutMins: Option<int>, lastError: string)

  /** A value of type any, as the callers of Update pass it. */
  datatype Value = Str(s: string) | Bool(b: bool) | Int(n: int) | Float(x: real) | Other

  datatype Status =
    | Ok
    | SessionKeyRequired
    | InvalidSessionMode
    | InvalidMode
    | NegativeTimeout
    | InvalidExpr
    | NotFound
    | ExprNotString
    | EnabledNotBool
    | FieldNotUpdated
    | RescheduleFailed

  const MODES := {"default", "bypassPermissions", "acceptEdits", "plan", "auto", "dontAsk"}

  function LowerChar(c: char): char {
    if 'A' <= c <= 'Z' then c - 'A' + 'a' else c
  }

  /** Lower case as far as the aliases below go: no other character becomes one of their letters. */
  function Lower(s: string): string {
    seq(|s|, i requires 0 <= i < |s| => LowerChar(s[i]))
  }

  function NormalizeSessionMode(s: string): string {
    var t := TrimSpace(s);
    var low := Lower(t);
    if low == "" || low == "reuse" then ""
    else if low == "new_per_run" || low == "new-per-run" then "new_per_run"
    else t
  }

  predicate KnownSessionMode(s: string) {
    NormalizeSessionMode(s) == "" || NormalizeSessionMode(s) == "new_per_run"
  }

  function Validate(d: JobData): Status {
    if TrimSpace(d.sessionKey) == "" then SessionKeyRequired
    else if !KnownSessionMode(d.sessionMode) then InvalidSessionMode
    else if d.mode != "" && d.mode !in MODES then InvalidMode
    else if d.timeoutMins.Some? && d.timeoutMins.value < 0 then NegativeTimeout
    else Ok
  }

  /** Go's conversion of a float to an int. */
  function Truncate(x: real): int {
    if x >= 0.0 then x.Floor else -((-x).Floor)
  }

  /** The cases of updateJobField. */
  function SetNamed(d: JobData, field: string, value: Value): Option<JobData> {
    if value.Str? then
      if field == "project" then Some(d.(project := value.s))
      else if field == "session_key" then Some(d.(sessionKey := value.s))
      else if field == "cron_expr" then Some(d.(cronExpr := value.s))
      else if field == "prompt" then Some(d.(prompt := value.s))
      else if field == "exec" then Some(d.(exec := value.s))
      else if field == "work_dir" then Some(d.(workDir := value.s))
      else if field == "description" then Some(d.(description := value.s))
      else if field == "session_mode" then Some(d.(sessionMode := value.s))
      else if field == "mode" then Some(d.(mode := value.s))
      else None
    else if value.Bool? then
      if field == "enabled" then Some(d.(enabled := value.b))
      else if field == "silent" then Some(d.(silent := Some(value.b)))
      else if field == "mute" then Some(d.(mute := value.b))
      else None
    else if field == "timeout_mins" && value.Int? then Some(d.(timeoutMins := Some(value.n)))
    else if field == "timeout_mins" && value.Float? then Some(d.(timeoutMins := Some(Truncate(value.x))))
    else None
  }

  function Upper(c: char): char {
    if 'a' <= c <= 'z' then c - 'a' + 'A' else c
  }

  /** toExportedFieldName, from a place where the next letter is raised or not. */
  function Exported(s: string, raise: bool): string {
    if s == "" then ""
    else if s[0] == '_' then Exported(s[1..], true)
    else [if raise then Upper(s[0]) else s[0]] + Exported(s[1..], false)
  }

  method ToExportedFieldName(s: string) returns (result: string)
    ensures result == Exported(s, true)
  {
    result := "";
    var upperNext := true;
    for i := 0 to |s|
      invariant result + Exported(s[i..], upperNext) == Exported(s, true)
    {
      var c := s[i];
      assert s[i..][0] == c && s[i..][1..] == s[i + 1..];
      if c == '_' {
        upperNext := true;
      } else {
        if upperNext {
          c := Upper(c);
        }
        assert Exported(s[i..], upperNext) == [c] + Exported(s[i + 1..], false);
        result := result + [c];
        upperNext := false;
      }
    }
    assert s[|s|..] == "";
  }

  /** The fallback of updateJobField: a string field by its name in the struct. */
  function SetExported(d: JobData, name: string, s: string): Option<JobData> {
    if name == "Project" then Some(d.(project := s))
    else if name == "SessionKey" then Some(d.(sessionKey := s))
    else if name == "CronExpr" then Some(d.(cronExpr := s))
    else if name == "Prompt" then Some(d.(prompt := s))
    else if name == "Exec" then Some(d.(exec := s))
    else if name == "WorkDir" then Some(d.(workDir := s))
    else if name == "Description" then Some(d.(description := s))
    else if name == "SessionMode" then Some(d.(sessionMode := s))
    else if name == "Mode" then Some(d.(mode := s))
    else if name == "LastError" then Some(d.(lastError := s))
    else None
  }

  /** updateJobField */
  function SetField(d: JobData, field: string, value: Value): Option<JobData> {
    var named := SetNamed(d, field, value);
    if named.Some? || !value.Str? then named else SetExported(d, Exported(field, true), value.s)
  }

  const READ_ONLY := {"id", "created_at", "last_run", "last_error"}

  predicate Refuses(data: JobData, field: string, value: Value) {
    field in READ_ONLY || SetField(data, field, value).None?
  }

  const TEXT_FIELDS := {
    "project", "session_key", "cron_expr", "prompt", "exec", "work_dir", "description", "session_mode", "mode"}

  /** Some other spelling of the field that holds the schedule. */
  predicate SpellsExpr(field: string) {
    field !in TEXT_FIELDS && field !in READ_ONLY && Exported(field, true) == "CronExpr"
  }

  lemma SpellsNoFlag(field: string)
    requires SpellsExpr(field)
    ensures field != "enabled"
  {
    assert field == "enabled" ==> Exported(field, true)[0] == 'E';
  }

  lemma NamedText(d: JobData, field: string, value: Value)
    requires value.Str?
    ensures SetNamed(d, field, value).Some? <==> field in TEXT_FIELDS
  {
  }

  lemma NamedMatters(d: JobData, field: string, value: Value)
    requires SetNamed(d, field, value).Some?
    ensures var u := SetNamed(d, field, value).value;
            && (field != "enabled" ==> u.enabled == d.enabled)
            && (field != "cron_expr" ==> u.cronExpr == d.cronExpr)
            && (field == "cron_expr" ==> value == Str(u.cronExpr))
            && (field == "enabled" ==> value == Bool(u.enabled))
  {
  }

  lemma ExportedMatters(d: JobData, name: string, s: string)
    requires SetExported(d, name, s).Some?
    ensures var u := SetExported(d, name, s).value;
            u.enabled == d.enabled && u.cronExpr == if name == "CronExpr" then s else d.cronExpr
  {
  }

  /** Only the fields that need a new registration, and other spellings of the schedule's, can change
      what is due. */
  lemma OnlyTwoFieldsMatter(d: JobData, field: string, value: Value)
    requires !Refuses(d, field, value)
    ensures var (u, byName) := (SetField(d, field, value).value, SetNamed(d, field, value).Some?);
            && (!(field == "enabled" && byName) ==> u.enabled == d.enabled)
            && (field == "enabled" && byName ==> value == Bool(u.enabled) && u.cronExpr == d.cronExpr)
            && (field == "cron_expr" && byName ==> value == Str(u.cronExpr))
            && (field != "cron_expr" && byName ==> u.cronExpr == d.cronExpr)
            && (!byName ==> value.Str? && u.cronExpr == if SpellsExpr(field) then value.s else d.cronExpr)
  {
    hide SetNamed, SetExported, Exported;
    if SetNamed(d, field, value).Some? {
      NamedMatters(d, field, value);
    } else {
      NamedText(d, field, value);
      ExportedMatters(d, Exported(field, true), value.s);
    }
  }

  class CronJob {
    const id: string
    var data: JobData

    constructor (id: string, data: JobData)
      ensures this.id == id && this.data == data
    {
      this.id := id;
      this.data := data;
    }
  }

  predicate UniqueIds(jobs: seq<CronJob>) {
    forall i, j :: 0 <= i < j < |jobs| ==> jobs[i].id != jobs[j].id
  }

  /** No job object is stored twice; ids may repeat, in a file that was edited by hand. */
  predicate DistinctJobs(jobs: seq<CronJob>) {
    forall i, j :: 0 <= i < j < |jobs| ==> jobs[i] != jobs[j]
  }

  /** Where the first job with the id is; the number of jobs if there is none. */
  function Find(jobs: seq<CronJob>, id: string): (k: nat)
    ensures k <= |jobs|
    ensures k < |jobs| ==> jobs[k].id == id
    ensures forall i :: 0 <= i < k ==> jobs[i].id != id
  {
    if jobs == [] || jobs[0].id == id then 0 else 1 + Find(jobs[1..], id)
  }

  lemma FindIs(jobs: seq<CronJob>, id: string, k: nat)
    requires k <= |jobs| && forall i :: 0 <= i < k ==> jobs[i].id != id
    requires k < |jobs| ==> jobs[k].id == id
    ensures Find(jobs, id) == k
  {
  }

  /** A stored job as a value. */
  datatype Stored = Stored(id: string, data: JobData)

  class CronStore {
    var jobs: seq<CronJob>

    constructor (jobs: seq<CronJob>)
      ensures this.jobs == jobs
    {
      this.jobs := jobs;
    }

    /** What the store holds: ids and current field values, in order. */
    function View(): (view: seq<Stored>)
      reads this, jobs
      ensures |view| == |jobs|
      ensures forall i :: 0 <= i < |jobs| ==> view[i] == Stored(jobs[i].id, jobs[i].data)
    {
      seq(|jobs|, i requires 0 <= i < |jobs| reads this, jobs => Stored(jobs[i].id, jobs[i].data))
    }

    method Add(job: CronJob)
      modifies this
      ensures jobs == old(jobs) + [job] && View() == old(View()) + [Stored(job.id, job.data)]
    {
      jobs := jobs + [job];
    }

    method Remove(id: string) returns (found: bool)
      modifies this
      ensures var k := Find(old(jobs), id);
              if k == |old(jobs)| then !found && jobs == old(jobs) && View() == old(View())
              else
                && found && jobs == old(jobs)[..k] + old(jobs)[k + 1..]
                && View() == old(View())[..k] + old(View())[k + 1..]
    {
      for i := 0 to |jobs|
        invariant jobs == old(jobs)
        invariant forall k :: 0 <= k < i ==> jobs[k].id != id
      {
        if jobs[i].id == id {
          FindIs(jobs, id, i);
          jobs := jobs[..i] + jobs[i + 1..];
          return true;
        }
      }
      FindIs(jobs, id, |jobs|);
      found := false;
    }

    method SetEnabled(id: string, enabled: bool) returns (found: bool)
      requires DistinctJobs(jobs)
      modifies jobs
      ensures var k := Find(jobs, id);
              if k == |jobs| then !found && View() == old(View())
              else found && View() == old(View())[k := Stored(id, old(View())[k].data.(enabled := enabled))]
    {
      for i := 0 to |jobs|
        invariant forall k :: 0 <= k < i ==> jobs[k].id != id
        invariant View() == old(View())
      {
        if jobs[i].id == id {
          FindIs(jobs, id, i);
          jobs[i].data := jobs[i].data.(enabled := enabled);
          return true;
        }
      }
      FindIs(jobs, id, |jobs|);
      found := false;
    }

    method Get(id: string) returns (job: CronJob?)
      ensures var k := Find(jobs, id); job == if k < |jobs| then jobs[k] else null
    {
      for i := 0 to |jobs|
        invariant forall k :: 0 <= k < i ==> jobs[k].id != id
      {
        if jobs[i].id == id {
          FindIs(jobs, id, i);
          return jobs[i];
        }
      }
      FindIs(jobs, id, |jobs|);
      job := null;
    }

    method Update(id: string, field: string, value: Value) returns (updated: bool)
      requires DistinctJobs(jobs)
      modifies jobs
      ensures var k := Find(jobs, id);
              if k == |jobs| || Refuses(old(View())[k].data, field, value)
              then !updated && View() == old(View())
              else updated && View() == old(View())[k := Stored(id, SetField(old(View())[k].data, field, value).value)]
    {
      if field in READ_ONLY {
        return false;
      }
      hide SetField;
      for i := 0 to |jobs|
        invariant forall k :: 0 <= k < i ==> jobs[k].id != id
        invariant View() == old(View())
      {
        if jobs[i].id == id {
          FindIs(jobs, id, i);
          var data := SetField(jobs[i].data, field, value);
          if data.None? {
            return false;
          }
          jobs[i].data := data.value;
          return true;
        }
      }
      FindIs(jobs, id, |jobs|);
      updated := false;
    }
  }
}

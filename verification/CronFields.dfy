/** What an update does to a job, seen through a reader of the fields under their JSON names; and
    which jobs are valid. */
module CronFields {
  import opened Text
  import opened Wrappers
  import opened CronStore
  import opened CronScheduler

  datatype Kind = Words | Flag | Minutes

  /** The fields an update may name, and the kind of value each takes. */
  const KINDS: map<string, Kind> := map[
    "project" := Words, "session_key" := Words, "cron_expr" := Words, "prompt" := Words, "exec" := Words,
    "work_dir" := Words, "description" := Words, "session_mode" := Words, "mode" := Words,
    "enabled" := Flag, "silent" := Flag, "mute" := Flag, "timeout_mins" := Minutes]

  /** The JSON name of a string field of the struct. */
  function JsonName(name: string): Option<string> {
    match name
    case "Project" => Some("project")
    case "SessionKey" => Some("session_key")
    case "CronExpr" => Some("cron_expr")
    case "Prompt" => Some("prompt")
    case "Exec" => Some("exec")
    case "WorkDir" => Some("work_dir")
    case "Description" => Some("description")
    case "SessionMode" => Some("session_mode")
    case "Mode" => Some("mode")
    case "LastError" => Some("last_error")
    case _ => None
  }

  predicate Accepts(field: string, value: Value) {
    && field in KINDS
    && match KINDS[field]
       case Words => value.Str?
       case Flag => value.Bool?
       case Minutes => value.Int? || value.Float?
  }

  predicate Respells(field: string, value: Value) {
    value.Str? && field !in TEXT_FIELDS && field !in READ_ONLY && JsonName(Exported(field, true)).Some?
  }

  /** The field that an update reaches: the one it names, or a string field it spells otherwise. */
  function Target(field: string, value: Value): Option<string> {
    if Accepts(field, value) then Some(field)
    else if Respells(field, value) then JsonName(Exported(field, true))
    else None
  }

  /** The struct's fields by the names of their JSON tags; None for a pointer that is nil. */
  function GetField(d: JobData, field: string): Option<Value> {
    match field
    case "project" => Some(Str(d.project))
    case "session_key" => Some(Str(d.sessionKey))
    case "cron_expr" => Some(Str(d.cronExpr))
    case "prompt" => Some(Str(d.prompt))
    case "exec" => Some(Str(d.exec))
    case "work_dir" => Some(Str(d.workDir))
    case "description" => Some(Str(d.description))
    case "enabled" => Some(Bool(d.enabled))
    case "silent" => if d.silent.Some? then Some(Bool(d.silent.value)) else None
    case "mute" => Some(Bool(d.mute))
    case "session_mode" => Some(Str(d.sessionMode))
    case "mode" => Some(Str(d.mode))
    case "timeout_mins" => if d.timeoutMins.Some? then Some(Int(d.timeoutMins.value)) else None
    case "last_error" => Some(Str(d.lastError))
    case _ => None
  }

  /** The value that is read back: the same one, or a number without its fraction. */
  predicate ReadsAs(value: Value, found: Option<Value>) {
    match value
    case Float(x) => found.Some? && found.value.Int? && TowardsZero(x, found.value.n)
    case _ => found == Some(value)
  }

  predicate TowardsZero(x: real, n: int) {
    if x >= 0.0 then n as real <= x < n as real + 1.0 else x <= n as real < x + 1.0 && n <= 0
  }

  lemma TruncatesTowardsZero(x: real)
    ensures TowardsZero(x, Truncate(x))
  {
  }

  // ---- The lens laws ----

  lemma NamedIff(d: JobData, field: string, value: Value)
    ensures SetNamed(d, field, value).Some? <==> Accepts(field, value)
  {
  }

  lemma PutGetNamed(d: JobData, field: string, value: Value)
    requires Accepts(field, value)
    ensures SetNamed(d, field, value).Some? && ReadsAs(value, GetField(SetNamed(d, field, value).value, field))
  {
    if value.Float? {
      TruncatesTowardsZero(value.x);
    }
  }

  lemma PutGetExported(d: JobData, name: string, s: string)
    requires JsonName(name).Some?
    ensures SetExported(d, name, s).Some?
    ensures GetField(SetExported(d, name, s).value, JsonName(name).value) == Some(Str(s))
  {
  }

  lemma ExportedIff(d: JobData, name: string, s: string)
    ensures SetExported(d, name, s).Some? <==> JsonName(name).Some?
  {
  }

  predicate ChangesOnly(d: JobData, e: JobData, field: string) {
    ChangesOnlyFirst(d, e, field) && ChangesOnlyNext(d, e, field) && ChangesOnlyLast(d, e, field)
  }

  predicate ChangesOnlyFirst(d: JobData, e: JobData, field: string) {
    && (field != "project" ==> e.project == d.project)
    && (field != "session_key" ==> e.sessionKey == d.sessionKey)
    && (field != "cron_expr" ==> e.cronExpr == d.cronExpr)
    && (field != "prompt" ==> e.prompt == d.prompt)
    && (field != "exec" ==> e.exec == d.exec)
  }

  predicate ChangesOnlyNext(d: JobData, e: JobData, field: string) {
    && (field != "work_dir" ==> e.workDir == d.workDir)
    && (field != "description" ==> e.description == d.description)
    && (field != "enabled" ==> e.enabled == d.enabled)
    && (field != "silent" ==> e.silent == d.silent)
    && (field != "mute" ==> e.mute == d.mute)
  }

  predicate ChangesOnlyLast(d: JobData, e: JobData, field: string) {
    && (field != "session_mode" ==> e.sessionMode == d.sessionMode)
    && (field != "mode" ==> e.mode == d.mode)
    && (field != "timeout_mins" ==> e.timeoutMins == d.timeoutMins)
    && (field != "last_error" ==> e.lastError == d.lastError)
  }

  lemma ReaderFrame(d: JobData, e: JobData, field: string, other: string)
    requires ChangesOnly(d, e, field) && other != field
    ensures GetField(e, other) == GetField(d, other)
  {
  }

  lemma WordsChangeFirst(d: JobData, field: string, value: Value)
    requires value.Str? && SetNamed(d, field, value).Some?
    ensures ChangesOnlyFirst(d, SetNamed(d, field, value).value, field)
  {
  }

  lemma WordsChangeNext(d: JobData, field: string, value: Value)
    requires value.Str? && SetNamed(d, field, value).Some?
    ensures ChangesOnlyNext(d, SetNamed(d, field, value).value, field)
  {
  }

  lemma WordsChangeLast(d: JobData, field: string, value: Value)
    requires value.Str? && SetNamed(d, field, value).Some?
    ensures ChangesOnlyLast(d, SetNamed(d, field, value).value, field)
  {
  }

  lemma WordsChangeOnly(d: JobData, field: string, value: Value)
    requires value.Str? && SetNamed(d, field, value).Some?
    ensures ChangesOnly(d, SetNamed(d, field, value).value, field)
  {
    hide SetNamed, ChangesOnlyFirst, ChangesOnlyNext, ChangesOnlyLast;
    WordsChangeFirst(d, field, value);
    WordsChangeNext(d, field, value);
    WordsChangeLast(d, field, value);
  }

  lemma FlagsChangeOnly(d: JobData, field: string, value: Value)
    requires !value.Str? && SetNamed(d, field, value).Some?
    ensures ChangesOnly(d, SetNamed(d, field, value).value, field)
  {
  }

  lemma ExportedChangesFirst(d: JobData, name: string, s: string)
    requires SetExported(d, name, s).Some? && JsonName(name).Some?
    ensures ChangesOnlyFirst(d, SetExported(d, name, s).value, JsonName(name).value)
  {
  }

  lemma ExportedChangesNext(d: JobData, name: string, s: string)
    requires SetExported(d, name, s).Some? && JsonName(name).Some?
    ensures ChangesOnlyNext(d, SetExported(d, name, s).value, JsonName(name).value)
  {
  }

  lemma ExportedChangesLast(d: JobData, name: string, s: string)
    requires SetExported(d, name, s).Some? && JsonName(name).Some?
    ensures ChangesOnlyLast(d, SetExported(d, name, s).value, JsonName(name).value)
  {
  }

  lemma ExportedChangesOnly(d: JobData, name: string, s: string)
    requires SetExported(d, name, s).Some? && JsonName(name).Some?
    ensures ChangesOnly(d, SetExported(d, name, s).value, JsonName(name).value)
  {
    hide SetExported, JsonName, ChangesOnlyFirst, ChangesOnlyNext, ChangesOnlyLast;
    ExportedChangesFirst(d, name, s);
    ExportedChangesNext(d, name, s);
    ExportedChangesLast(d, name, s);
  }

  /** An update is refused if it reaches no field; else the field it reaches reads the given value, and
      every other field reads as before. */
  lemma PutIsLens(d: JobData, field: string, value: Value, other: string)
    ensures Refuses(d, field, value) <==> Target(field, value).None?
    ensures var target := Target(field, value);
            target.Some? ==>
              && ReadsAs(value, GetField(SetField(d, field, value).value, target.value))
              && (other != target.value ==> GetField(SetField(d, field, value).value, other) == GetField(d, other))
  {
    hide GetField, Accepts, SetNamed, SetExported, ChangesOnly, ReadsAs, Exported;
    NamedIff(d, field, value);
    if Accepts(field, value) {
      AcceptedIsWritable(field, value);
      PutGetNamed(d, field, value);
      if value.Str? {
        WordsChangeOnly(d, field, value);
      } else {
        FlagsChangeOnly(d, field, value);
      }
      if other != field {
        ReaderFrame(d, SetNamed(d, field, value).value, field, other);
      }
    } else if value.Str? {
      NamedText(d, field, value);
      var name := Exported(field, true);
      ExportedIff(d, name, value.s);
      if JsonName(name).Some? {
        PutGetExported(d, name, value.s);
        StrReadsBack(value, GetField(SetExported(d, name, value.s).value, JsonName(name).value));
        ExportedChangesOnly(d, name, value.s);
        if other != JsonName(name).value {
          ReaderFrame(d, SetExported(d, name, value.s).value, JsonName(name).value, other);
        }
      }
    }
  }

  lemma AcceptedIsWritable(field: string, value: Value)
    requires Accepts(field, value)
    ensures field !in READ_ONLY
  {
  }

  lemma StrReadsBack(value: Value, found: Option<Value>)
    requires value.Str? && found == Some(value)
    ensures ReadsAs(value, found)
  {
  }

  // ---- Spellings ----

  lemma {:induction false} ExportedKeeps(w: string)
    requires '_' !in w
    ensures Exported(w, false) == w
  {
    if w != "" {
      ExportedKeeps(w[1..]);
    }
  }

  /** A word gets a capital. */
  lemma ExportedWord(w: string)
    requires '_' !in w && w != ""
    ensures Exported(w, true) == [Upper(w[0])] + w[1..]
  {
    ExportedKeeps(w[1..]);
  }

  /** Words joined by an underscore are joined without it. */
  lemma {:induction false} ExportedJoins(a: string, b: string, raise: bool)
    ensures Exported(a + "_" + b, raise) == Exported(a, raise) + Exported(b, true)
  {
    if a == "" {
      assert a + "_" + b == "_" + b && ("_" + b)[1..] == b;
    } else {
      assert (a + "_" + b)[0] == a[0] && (a + "_" + b)[1..] == a[1..] + "_" + b;
      ExportedJoins(a[1..], b, if a[0] == '_' then true else false);
    }
  }

  lemma EnabledIsNoWord()
    ensures JsonName(Exported("enabled", true)).None?
  {
    ExportedWord("enabled");
    assert |[Upper('e')] + "enabled"[1..]| == 7 && ([Upper('e')] + "enabled"[1..])[0] == 'E';
  }

  // ---- What UpdateJob accepts and leaves ----

  /** A spelling under which an enabled job gets a schedule that does not parse, while its registration
      for the old one stays. */
  lemma SpelledExprStrays(parses: string -> bool, data: JobData, s: string)
    requires data.enabled && parses(data.cronExpr) && !parses(s)
    ensures Strays(parses, data, "CronExpr", Str(s))
    ensures Updated(parses, data, "CronExpr", Str(s)).0 == Ok
  {
    hide SetField, Refuses, CheckUpdate, SpellsExpr, NeedsReschedule;
    StructNameSpells();
    StraysIsPlain(parses, data, "CronExpr", Str(s));
  }

  lemma StructNameSpells()
    ensures SpellsExpr("CronExpr")
  {
    hide Exported;
    ExportedWord("CronExpr");
    assert [Upper('C')] + "CronExpr"[1..] == "CronExpr";
  }

  /** What the caller of an update that names its field has to get right. */
  predicate GoodValue(parses: string -> bool, field: string, value: Value) {
    && Accepts(field, value)
    && (field == "cron_expr" ==> parses(value.s))
    && (field == "mode" ==> value.s == "" || value.s in MODES)
    && (field == "session_mode" ==> KnownSessionMode(value.s))
  }

  predicate Applied(status: Status) {
    status == Ok || status == RescheduleFailed
  }

  lemma CheckedIff(parses: string -> bool, field: string, value: Value)
    ensures CheckUpdate(parses, field, value) == Ok && Accepts(field, value) <==> GoodValue(parses, field, value)
    ensures CheckUpdate(parses, field, value) != RescheduleFailed
  {
    assert "" == TrimSpace("");
  }

  lemma RespelledIsUnchecked(parses: string -> bool, field: string, value: Value)
    requires Respells(field, value)
    ensures CheckUpdate(parses, field, value) == Ok && !Accepts(field, value) && Target(field, value).Some?
  {
    hide Exported, JsonName, KnownSessionMode;
    EnabledIsNoWord();
  }

  /** An update is applied if and only if it names a field and its value is good for that field, or it
      spells a string field otherwise, which no check looks at. Then that field reads the given value
      and every other field reads as before; else the job is as it was. */
  lemma UpdateIsPut(parses: string -> bool, data: JobData, field: string, value: Value, other: string)
    ensures var ((status, data'), target) := (Updated(parses, data, field, value), Target(field, value));
            && (Applied(status) <==> GoodValue(parses, field, value) || Respells(field, value))
            && (Applied(status) ==> target.Some? && ReadsAs(value, GetField(data', target.value)))
            && (Applied(status) && other != target.value ==> GetField(data', other) == GetField(data, other))
            && (!Applied(status) ==> data' == data)
  {
    hide GetField, Accepts, SetField, CheckUpdate, GoodValue, ReadsAs, KnownSessionMode, Refuses, Respells;
    CheckedIff(parses, field, value);
    PutIsLens(data, field, value, other);
    if Respells(field, value) {
      RespelledIsUnchecked(parses, field, value);
    } else {
      GoodIsAccepted(parses, field, value);
    }
  }

  lemma GoodIsAccepted(parses: string -> bool, field: string, value: Value)
    ensures GoodValue(parses, field, value) ==> Accepts(field, value)
  {
  }

  /** Which mistake an update that is not applied is told about. */
  lemma RefusalIff(parses: string -> bool, data: JobData, field: string, value: Value)
    ensures var status := Updated(parses, data, field, value).0;
            && (status == ExprNotString <==> field == "cron_expr" && !value.Str?)
            && (status == InvalidExpr <==> field == "cron_expr" && value.Str? && !parses(value.s))
            && (status == InvalidMode <==> field == "mode" && value.Str? && value.s !in MODES + {""})
            && (status == EnabledNotBool <==> field == "enabled" && !value.Bool?)
            && (status == RescheduleFailed <==>
                  field == "enabled" && value == Bool(true) && !parses(data.cronExpr))
            && status in {Ok, ExprNotString, InvalidExpr, InvalidMode, InvalidSessionMode, EnabledNotBool,
                          FieldNotUpdated, RescheduleFailed}
  {
    hide SetField, Refuses, KnownSessionMode;
    if NeedsReschedule(field) && CheckUpdate(parses, field, value) == Ok {
      RescheduledAreSet(parses, data, field, value);
      OnlyTwoFieldsMatter(data, field, value);
      NamedIff(data, field, value);
    }
  }

  // ---- Which jobs are valid ----

  predicate SameLetter(c: char, d: char) {
    c == d || ('a' <= d <= 'z' && c == d - 'a' + 'A')
  }

  /** The alias in letters of either case, with space around it. */
  predicate Writes(s: string, alias: string) {
    |TrimSpace(s)| == |alias| && forall i :: 0 <= i < |alias| ==> SameLetter(TrimSpace(s)[i], alias[i])
  }

  lemma LowerWrites(s: string, alias: string)
    requires forall i :: 0 <= i < |alias| ==> !('A' <= alias[i] <= 'Z')
    ensures Lower(TrimSpace(s)) == alias <==> Writes(s, alias)
  {
    hide TrimSpace;
    var t := TrimSpace(s);
    if Lower(t) == alias {
      forall i | 0 <= i < |alias| ensures SameLetter(t[i], alias[i]) {
        assert Lower(t)[i] == alias[i];
      }
    }
  }

  /** Exactly which texts mean which session mode; any other is kept without the space around it. */
  lemma NormalizeIff(s: string)
    ensures NormalizeSessionMode(s) == "" <==> Writes(s, "") || Writes(s, "reuse")
    ensures NormalizeSessionMode(s) == "new_per_run" <==> Writes(s, "new_per_run") || Writes(s, "new-per-run")
    ensures NormalizeSessionMode(s) in {"", "new_per_run", TrimSpace(s)}
  {
    hide TrimSpace, Lower;
    LowerWrites(s, "");
    LowerWrites(s, "reuse");
    LowerWrites(s, "new_per_run");
    LowerWrites(s, "new-per-run");
  }

  /** The rules a job can break. */
  function Broken(d: JobData): set<Status> {
    (if TrimSpace(d.sessionKey) == "" then {SessionKeyRequired} else {})
    + (if NormalizeSessionMode(d.sessionMode) !in {"", "new_per_run"} then {InvalidSessionMode} else {})
    + (if d.mode !in {"", "default", "bypassPermissions", "acceptEdits", "plan", "auto", "dontAsk"} then {InvalidMode}
       else {})
    + (match d.timeoutMins case Some(n) => if n < 0 then {NegativeTimeout} else {} case None => {})
  }

  const RULES := [SessionKeyRequired, InvalidSessionMode, InvalidMode, NegativeTimeout]

  /** A job is valid if it breaks no rule, else it is told the first rule it breaks. */
  lemma ValidateIff(d: JobData)
    ensures Validate(d) == Ok <==> Broken(d) == {}
    ensures Validate(d) != Ok ==>
              exists k :: 0 <= k < |RULES| && Validate(d) == RULES[k] && RULES[k] in Broken(d)
                          && forall j :: 0 <= j < k ==> RULES[j] !in Broken(d)
  {
    hide TrimSpace, NormalizeSessionMode;
    assert RULES[0] == SessionKeyRequired && RULES[1] == InvalidSessionMode && RULES[2] == InvalidMode
           && RULES[3] == NegativeTimeout;
  }

  /** A value with which the field of a valid job keeps it valid. */
  predicate KeepsValid(target: string, value: Value) {
    && (target == "session_key" ==> value.Str? && TrimSpace(value.s) != "")
    && (target == "session_mode" ==> value.Str? && KnownSessionMode(value.s))
    && (target == "mode" ==> value.Str? && value.s in MODES + {""})
    && (target == "timeout_mins" ==> if value.Int? then value.n >= 0 else value.Float? && value.x > -1.0)
  }

  lemma RuledFields(d: JobData)
    ensures GetField(d, "session_key") == Some(Str(d.sessionKey)) && GetField(d, "mode") == Some(Str(d.mode))
    ensures GetField(d, "session_mode") == Some(Str(d.sessionMode))
    ensures GetField(d, "timeout_mins") == if d.timeoutMins.Some? then Some(Int(d.timeoutMins.value)) else None
  {
  }

  /** UpdateJob does not validate the job again: an update of a valid job that is applied leaves it
      valid if and only if the value keeps it valid. A blank session key, a negative timeout, or a bad
      mode under another spelling do not. */
  lemma UpdateKeepsValidIff(parses: string -> bool, data: JobData, field: string, value: Value)
    requires Validate(data) == Ok && Applied(Updated(parses, data, field, value).0)
    ensures Target(field, value).Some?
    ensures Validate(Updated(parses, data, field, value).1) == Ok <==> KeepsValid(Target(field, value).value, value)
  {
    hide Updated, GetField, Target, KnownSessionMode, TrimSpace, MODES;
    var data' := Updated(parses, data, field, value).1;
    UpdateIsPut(parses, data, field, value, "session_key");
    UpdateIsPut(parses, data, field, value, "session_mode");
    UpdateIsPut(parses, data, field, value, "mode");
    UpdateIsPut(parses, data, field, value, "timeout_mins");
    RuledFields(data);
    RuledFields(data');
  }
}

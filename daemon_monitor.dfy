/**
 * The crash-reporter daemon's monitor: what it does when a watched core
 * directory changes. It keeps a history of handled rich-core signatures,
 * throttles repeats of the same crash when auto-delete is on, and routes
 * every other new core to the notification UI or to the auto-uploader.
 *
 * Everything the daemon does to the outside world (removing a file, the
 * richCoreNotify signal, D-Bus requests, the fallback notification) is an
 * Effect appended to a trace; answers from the outside world (directory
 * existence, the registry's scan, D-Bus replies) are inputs.
 */
module DaemonMonitor {
  import opened Common
  import opened RichCore

  // ---------------------------------------------------------------------
  // Duplicate detection
  // ---------------------------------------------------------------------

  /** The history after one duplicate check, and whether the core is suppressed. */
  datatype Verdict = Verdict(history: seq<HandledRichCore>, suppress: bool)

  /** Position of the first stored entry whose band admits `core`, in list order. */
  function FirstMatch(history: seq<HandledRichCore>, core: HandledRichCore): (r: Option<nat>)
    ensures r.Some? ==> r.value < |history| && Matches(history[r.value], core)
    ensures r.Some? ==> forall j :: 0 <= j < r.value ==> !Matches(history[j], core)
    ensures r.None? <==> forall j :: 0 <= j < |history| ==> !Matches(history[j], core)
  {
    if history == [] then None
    else if Matches(history[0], core) then Some(0)
    else match FirstMatch(history[1..], core)
      case None => None
      case Some(i) => Some(i + 1)
  }

  /** Same signature, ignoring the repeat counter. */
  predicate SameSignature(a: HandledRichCore, b: HandledRichCore) {
    a.(count := 0) == b.(count := 0)
  }

  /**
   * `after` extends `before`: no entry is removed or moved, no signature
   * changes and no counter decreases.
   */
  predicate Grows(before: seq<HandledRichCore>, after: seq<HandledRichCore>) {
    |before| <= |after| &&
    forall i :: 0 <= i < |before| ==>
      SameSignature(after[i], before[i]) && after[i].count >= before[i].count
  }

  /** No entry of the history matches a later one: each was stored only because nothing matched it. */
  predicate Distinct(history: seq<HandledRichCore>) {
    forall i, j :: 0 <= i < j < |history| ==> !Matches(history[i], history[j])
  }

  lemma GrowsTransitive(a: seq<HandledRichCore>, b: seq<HandledRichCore>, c: seq<HandledRichCore>)
    requires Grows(a, b) && Grows(b, c)
    ensures Grows(a, c)
  {
  }

  /**
   * checkForDuplicates on a freshly built signature `core`: the first
   * matching entry has its counter incremented and the core is suppressed
   * iff that counter reaches `maxSimilar`; with no match the core is
   * appended with counter 1 and is not suppressed.
   */
  function DuplicateCheck(history: seq<HandledRichCore>, core: HandledRichCore, maxSimilar: int): (v: Verdict)
    ensures Grows(history, v.history)
    ensures Distinct(history) ==> Distinct(v.history)
    ensures FirstMatch(history, core).Some? ==>
      var i := FirstMatch(history, core).value;
      |v.history| == |history| &&
      v.history[i].count == history[i].count + 1 &&
      (forall j :: 0 <= j < |history| && j != i ==> v.history[j] == history[j]) &&
      (v.suppress <==> history[i].count + 1 >= maxSimilar)
    ensures FirstMatch(history, core).None? ==>
      v.history == history + [core.(count := core.count + 1)] && !v.suppress
  {
    match FirstMatch(history, core)
    case Some(i) =>
      var entry := history[i].(count := history[i].count + 1);
      Verdict(history[i := entry], entry.count >= maxSimilar)
    case None =>
      Verdict(history + [core.(count := core.count + 1)], false)
  }

  /** The verdicts for a run of cores fed one after another, and the final history. */
  datatype Replayed = Replayed(history: seq<HandledRichCore>, suppressed: seq<bool>)

  function Replay(history: seq<HandledRichCore>, cores: seq<HandledRichCore>, maxSimilar: int): (r: Replayed)
    ensures |r.suppressed| == |cores|
    decreases |cores|
  {
    if cores == [] then Replayed(history, [])
    else
      var v := DuplicateCheck(history, cores[0], maxSimilar);
      var rest := Replay(v.history, cores[1..], maxSimilar);
      Replayed(rest.history, [v.suppress] + rest.suppressed)
  }

  /** The history only ever grows along a run, whatever the cores. */
  lemma {:induction false} ReplayGrows(history: seq<HandledRichCore>, cores: seq<HandledRichCore>, maxSimilar: int)
    ensures Grows(history, Replay(history, cores, maxSimilar).history)
    ensures Distinct(history) ==> Distinct(Replay(history, cores, maxSimilar).history)
    decreases |cores|
  {
    if cores != [] {
      var v := DuplicateCheck(history, cores[0], maxSimilar);
      ReplayGrows(v.history, cores[1..], maxSimilar);
      GrowsTransitive(history, v.history, Replay(v.history, cores[1..], maxSimilar).history);
    }
  }

  /** Cores that the first one's band admits and that no older entry admits. */
  predicate SameCrashRun(history: seq<HandledRichCore>, first: HandledRichCore, cores: seq<HandledRichCore>) {
    forall j :: 0 <= j < |cores| ==>
      Matches(first, cores[j]) && forall e :: e in history ==> !Matches(e, cores[j])
  }

  /** One more core of the crash stored last: only that entry's counter moves. */
  lemma RepeatOfLast(history: seq<HandledRichCore>, first: HandledRichCore, m: int,
                     c: HandledRichCore, maxSimilar: int)
    requires Matches(first, c) && forall e :: e in history ==> !Matches(e, c)
    ensures DuplicateCheck(history + [first.(count := m)], c, maxSimilar) ==
      Verdict(history + [first.(count := m + 1)], m + 1 >= maxSimilar)
  {
    var h := history + [first.(count := m)];
    forall j | 0 <= j < |history| ensures !Matches(h[j], c) {
      assert h[j] in history;
    }
    assert Matches(h[|history|], c);
    assert FirstMatch(h, c) == Some(|history|);
    assert h[|history| := first.(count := m + 1)] == history + [first.(count := m + 1)];
  }

  lemma SameCrashRunTail(history: seq<HandledRichCore>, first: HandledRichCore, cores: seq<HandledRichCore>)
    requires |cores| > 0 && SameCrashRun(history, first, cores)
    ensures SameCrashRun(history, first, cores[1..])
  {
    forall j | 0 <= j < |cores[1..]|
      ensures Matches(first, cores[1..][j]) && forall e :: e in history ==> !Matches(e, cores[1..][j])
    {
      assert cores[1..][j] == cores[j + 1];
    }
  }

  /** Replay after one step, written out. */
  lemma ReplayStep(history: seq<HandledRichCore>, cores: seq<HandledRichCore>, maxSimilar: int,
                   v: Verdict, tail: Replayed)
    requires cores != []
    requires v == DuplicateCheck(history, cores[0], maxSimilar)
    requires tail == Replay(v.history, cores[1..], maxSimilar)
    ensures Replay(history, cores, maxSimilar) == Replayed(tail.history, [v.suppress] + tail.suppressed)
  {
  }

  /** Verdict k of `s` is that of occurrence m + k + 1 of one crash: suppressed iff it reaches the threshold. */
  predicate SuppressedFrom(s: seq<bool>, m: int, maxSimilar: int) {
    forall k :: 0 <= k < |s| ==> s[k] == (m + k + 1 >= maxSimilar)
  }

  /** Prepending the verdict for occurrence m+1 to those for m+2, m+3, ... */
  lemma ShiftedThresholds(tail: seq<bool>, head: bool, m: int, maxSimilar: int)
    requires head == (m + 1 >= maxSimilar)
    requires SuppressedFrom(tail, m + 1, maxSimilar)
    ensures SuppressedFrom([head] + tail, m, maxSimilar)
  {
    forall k | 0 <= k < |tail| + 1 ensures ([head] + tail)[k] == (m + k + 1 >= maxSimilar) {
      if k > 0 {
        assert ([head] + tail)[k] == tail[k - 1];
      }
    }
  }

  lemma {:induction false} RepeatedCrashTail(history: seq<HandledRichCore>, first: HandledRichCore, m: int,
                                            cores: seq<HandledRichCore>, maxSimilar: int)
    requires SameCrashRun(history, first, cores)
    ensures Replay(history + [first.(count := m)], cores, maxSimilar).history ==
      history + [first.(count := m + |cores|)]
    ensures SuppressedFrom(Replay(history + [first.(count := m)], cores, maxSimilar).suppressed, m, maxSimilar)
    decreases |cores|
  {
    if cores != [] {
      SameCrashRunTail(history, first, cores);
      RepeatedCrashTail(history, first, m + 1, cores[1..], maxSimilar);
      RepeatedCrashStep(history, first, m, cores, maxSimilar);
    }
  }

  /** One more occurrence in front of a run whose outcome is known. */
  lemma RepeatedCrashStep(history: seq<HandledRichCore>, first: HandledRichCore, m: int,
                          cores: seq<HandledRichCore>, maxSimilar: int)
    requires cores != []
    requires Matches(first, cores[0]) && forall e :: e in history ==> !Matches(e, cores[0])
    requires Replay(history + [first.(count := m + 1)], cores[1..], maxSimilar).history ==
      history + [first.(count := m + 1 + |cores[1..]|)]
    requires SuppressedFrom(Replay(history + [first.(count := m + 1)], cores[1..], maxSimilar).suppressed,
                            m + 1, maxSimilar)
    ensures Replay(history + [first.(count := m)], cores, maxSimilar).history ==
      history + [first.(count := m + |cores|)]
    ensures SuppressedFrom(Replay(history + [first.(count := m)], cores, maxSimilar).suppressed, m, maxSimilar)
  {
    var h := history + [first.(count := m)];
    var v := Verdict(history + [first.(count := m + 1)], m + 1 >= maxSimilar);
    var tail := Replay(v.history, cores[1..], maxSimilar);
    RepeatOfLast(history, first, m, cores[0], maxSimilar);
    ReplayStep(h, cores, maxSimilar, v, tail);
    assert m + 1 + |cores[1..]| == m + |cores|;
    ShiftedThresholds(tail.suppressed, v.suppress, m, maxSimilar);
  }

  /**
   * Feeding the same crash again and again (every later core inside the
   * first one's band, none inside an older entry's band): the k-th
   * occurrence, counting the first as 0, is suppressed iff k >= 1 and
   * k + 1 >= maxSimilar; the first occurrence is never suppressed. One
   * entry is added, and its counter ends at the number of occurrences.
   */
  lemma {:induction false} RepeatedCrash(history: seq<HandledRichCore>, cores: seq<HandledRichCore>, maxSimilar: int)
    requires |cores| > 0 && cores[0].count == 0
    requires SameCrashRun(history, cores[0], cores)
    ensures Replay(history, cores, maxSimilar).history == history + [cores[0].(count := |cores|)]
    ensures forall k :: 0 <= k < |cores| ==>
      Replay(history, cores, maxSimilar).suppressed[k] == (k >= 1 && k + 1 >= maxSimilar)
  {
    var c := cores[0];
    forall j | 0 <= j < |history| ensures !Matches(history[j], c) {
      assert history[j] in history;
    }
    var v := DuplicateCheck(history, c, maxSimilar);
    assert v == Verdict(history + [c.(count := 1)], false);
    SameCrashRunTail(history, c, cores);
    RepeatedCrashTail(history, c, 1, cores[1..], maxSimilar);
    var tail := Replay(v.history, cores[1..], maxSimilar);
    assert SuppressedFrom(tail.suppressed, 1, maxSimilar);
    ReplayStep(history, cores, maxSimilar, v, tail);
    var r := Replay(history, cores, maxSimilar);
    forall k | 0 <= k < |cores| ensures r.suppressed[k] == (k >= 1 && k + 1 >= maxSimilar) {
      if k > 0 {
        assert r.suppressed[k] == tail.suppressed[k - 1];
      }
    }
  }

  /**
   * Five cores of the same binary and signal of 1000, 1020, 980, 1010 and
   * 990 bytes, with a threshold of 3: the third and later ones are
   * suppressed, because the third brings the counter to 3.
   */
  lemma FiveSimilarCores(info: CrashInfo)
    ensures
      var cores := [NewHandledRichCore(info, 1000), NewHandledRichCore(info, 1020),
                    NewHandledRichCore(info, 980), NewHandledRichCore(info, 1010),
                    NewHandledRichCore(info, 990)];
      Replay([], cores, 3).suppressed == [false, false, true, true, true]
  {
    var cores := [NewHandledRichCore(info, 1000), NewHandledRichCore(info, 1020),
                  NewHandledRichCore(info, 980), NewHandledRichCore(info, 1010),
                  NewHandledRichCore(info, 990)];
    assert SameCrashRun([], cores[0], cores);
    RepeatedCrash([], cores, 3);
  }

  // ---------------------------------------------------------------------
  // D-Bus replies and the daemon's outputs
  // ---------------------------------------------------------------------

  /** A D-Bus reply: a value, or an error with its name. */
  datatype DBusReply = Reply(value: bool) | ErrorReply(name: string)

  const CHILD_SIGNALED: string := "org.freedesktop.DBus.Error.Spawn.ChildSignaled"

  /** The dialog types the daemon asks the dialog server for. */
  datatype DialogType = NotifyNewDialog

  datatype Effect =
    | RemoveFile(path: string)
    | RichCoreNotify(path: string)
    | RequestDialog(dialog: DialogType, arguments: seq<string>)
    | QueryDialogServerRegistered
    | ShowNotification(eventType: string, summary: string, body: string, timeout: int)
    | UploadFiles(files: seq<string>)
    | QuitAutoUploader

  predicate IsRemoveFile(e: Effect) { e.RemoveFile? }
  predicate IsRichCoreNotify(e: Effect) { e.RichCoreNotify? }
  predicate IsRequestDialog(e: Effect) { e.RequestDialog? }
  predicate IsShowNotification(e: Effect) { e.ShowNotification? }
  predicate IsUploadFiles(e: Effect) { e.UploadFiles? }
  predicate IsQuitAutoUploader(e: Effect) { e.QuitAutoUploader? }

  /**
   * The local notification shown when the UI cannot be reached. Its summary
   * keeps the literal "%1": the substituted string is discarded.
   */
  const FALLBACK_NOTIFICATION: Effect :=
    ShowNotification("crash-reporter", "The application %1 crashed.", "Unable to start Crash Reporter UI", 10)

  /** An error reply other than "child signaled" makes the daemon ask whether the UI is registered. */
  predicate NeedsRegistrationCheck(reply: DBusReply) {
    reply.ErrorReply? && reply.name != CHILD_SIGNALED
  }

  /**
   * notifyCrashReporterUI's verdict: false only when the request failed
   * for a reason other than the UI dying on a signal and the UI's service
   * is not registered. The boolean carried by a successful reply is ignored.
   */
  function UiNotified(reply: DBusReply, registered: bool): (ok: bool)
    ensures !ok <==> reply.ErrorReply? && reply.name != CHILD_SIGNALED && !registered
    ensures reply.Reply? ==> ok
  {
    if reply.ErrorReply? then
      if reply.name != CHILD_SIGNALED then registered else true
    else true
  }

  /** The D-Bus traffic of notifyCrashReporterUI: the request, then the registration query if needed. */
  function UiNotifyEffects(dialog: DialogType, arguments: seq<string>, reply: DBusReply): (effects: seq<Effect>)
    ensures |effects| == if NeedsRegistrationCheck(reply) then 2 else 1
    ensures effects[0] == RequestDialog(dialog, arguments)
    ensures |effects| == 2 ==> effects[1] == QueryDialogServerRegistered
  {
    [RequestDialog(dialog, arguments)] + if NeedsRegistrationCheck(reply) then [QueryDialogServerRegistered] else []
  }

  /** notifyAutoUploader's verdict: true iff the reply is not an error. */
  function UploaderNotified(reply: DBusReply): (ok: bool)
    ensures ok <==> reply.Reply?
  {
    if reply.ErrorReply? then false else true
  }

  // ---------------------------------------------------------------------
  // The directory-changed policy
  // ---------------------------------------------------------------------

  /** What the outside world answers while one directory-changed event is handled. */
  datatype Environment = Environment(
    dirExists: bool,           // the changed directory still exists
    newCore: string,           // the registry's scan of it; "" when no new core was found
    coreInfo: CrashInfo,       // what the new core's file name parses to
    coreSize: nat,             // the new core's size on disk
    dialogReply: DBusReply,    // the dialog server's reply to the request
    dialogRegistered: bool,    // whether the dialog server's service is registered
    allCores: seq<string>,     // every core file the registry knows of
    uploaderReply: DBusReply)  // the auto-uploader's reply to the upload request

  datatype Outcome = Outcome(effects: seq<Effect>, history: seq<HandledRichCore>)

  /** A new core was found in a directory that still exists. */
  predicate Found(env: Environment) {
    env.dirExists && env.newCore != ""
  }

  /** The new core is a suppressed duplicate; only consulted under auto-delete. */
  predicate Deleted(autoDelete: bool, history: seq<HandledRichCore>, maxSimilar: int, env: Environment) {
    Found(env) && autoDelete &&
    DuplicateCheck(history, NewHandledRichCore(env.coreInfo, env.coreSize), maxSimilar).suppress
  }

  /**
   * handleDirectoryChanged, given the outside world's answers and the
   * daemon's modes, history and threshold.
   */
  function DirectoryChanged(autoDelete: bool, autoUpload: bool, history: seq<HandledRichCore>,
                            maxSimilar: int, env: Environment): (o: Outcome)
    ensures !Found(env) ==> o == Outcome([], history)
    ensures !autoDelete ==> o.history == history
    ensures Grows(history, o.history)
    ensures Distinct(history) ==> Distinct(o.history)
    ensures Deleted(autoDelete, history, maxSimilar, env) ==> o.effects == [RemoveFile(env.newCore)]
    ensures Found(env) && !Deleted(autoDelete, history, maxSimilar, env) ==>
      |o.effects| > 0 && o.effects[0] == RichCoreNotify(env.newCore) &&
      Count(o.effects, IsRichCoreNotify) == 1 && Count(o.effects, IsRemoveFile) == 0
    ensures Found(env) && !Deleted(autoDelete, history, maxSimilar, env) && !autoUpload ==>
      Count(o.effects, IsRequestDialog) == 1 && Count(o.effects, IsUploadFiles) == 0 &&
      Count(o.effects, IsShowNotification) == (if UiNotified(env.dialogReply, env.dialogRegistered) then 0 else 1)
    ensures Found(env) && !Deleted(autoDelete, history, maxSimilar, env) && !autoUpload ==>
      |o.effects| >= 2 && o.effects[1] == RequestDialog(NotifyNewDialog, [env.newCore]) &&
      (NeedsRegistrationCheck(env.dialogReply) ==> |o.effects| >= 3 && o.effects[2] == QueryDialogServerRegistered) &&
      (!UiNotified(env.dialogReply, env.dialogRegistered) ==> |o.effects| == 4 && o.effects[3] == FALLBACK_NOTIFICATION)
    ensures Found(env) && !Deleted(autoDelete, history, maxSimilar, env) && !autoUpload ==>
      o.effects == [RichCoreNotify(env.newCore)] + UiNotifyEffects(NotifyNewDialog, [env.newCore], env.dialogReply) +
        (if UiNotified(env.dialogReply, env.dialogRegistered) then [] else [FALLBACK_NOTIFICATION])
    ensures Found(env) && !Deleted(autoDelete, history, maxSimilar, env) && !autoUpload ==>
      |o.effects| == 2 + (if NeedsRegistrationCheck(env.dialogReply) then 1 else 0) +
        (if UiNotified(env.dialogReply, env.dialogRegistered) then 0 else 1)
    ensures Found(env) && !Deleted(autoDelete, history, maxSimilar, env) && autoUpload ==>
      o.effects == [RichCoreNotify(env.newCore), UploadFiles(env.allCores)]
    ensures Found(env) && autoDelete ==>
      o.history == DuplicateCheck(history, NewHandledRichCore(env.coreInfo, env.coreSize), maxSimilar).history
  {
    if !env.dirExists || env.newCore == "" then Outcome([], history)
    else
      var v :=
        if autoDelete then DuplicateCheck(history, NewHandledRichCore(env.coreInfo, env.coreSize), maxSimilar)
        else Verdict(history, false);
      if v.suppress then Outcome([RemoveFile(env.newCore)], v.history)
      else
        var action :=
          if !autoUpload then
            UiNotifyEffects(NotifyNewDialog, [env.newCore], env.dialogReply) +
            (if UiNotified(env.dialogReply, env.dialogRegistered) then [] else [FALLBACK_NOTIFICATION])
          else
            [UploadFiles(env.allCores)];
        CountActions(env.newCore, action, !autoUpload, env);
        Outcome([RichCoreNotify(env.newCore)] + action, v.history)
  }

  lemma CountActions(path: string, action: seq<Effect>, notifyUi: bool, env: Environment)
    requires action == if notifyUi then
        UiNotifyEffects(NotifyNewDialog, [path], env.dialogReply) +
        (if UiNotified(env.dialogReply, env.dialogRegistered) then [] else [FALLBACK_NOTIFICATION])
      else [UploadFiles(env.allCores)]
    ensures (if notifyUi then (Count([RichCoreNotify(path)] + action, IsRequestDialog) == 1 &&
      Count([RichCoreNotify(path)] + action, IsUploadFiles) == 0 &&
      Count([RichCoreNotify(path)] + action, IsShowNotification) ==
        (if UiNotified(env.dialogReply, env.dialogRegistered) then 0 else 1)) else true)
    ensures Count([RichCoreNotify(path)] + action, IsRichCoreNotify) == 1
    ensures Count([RichCoreNotify(path)] + action, IsRemoveFile) == 0
    ensures notifyUi ==> var t := [RichCoreNotify(path)] + action;
      |t| >= 2 && t[1] == RequestDialog(NotifyNewDialog, [path]) &&
      (NeedsRegistrationCheck(env.dialogReply) ==> |t| >= 3 && t[2] == QueryDialogServerRegistered) &&
      (!UiNotified(env.dialogReply, env.dialogRegistered) ==> |t| == 4 && t[3] == FALLBACK_NOTIFICATION)
  {
    var t := [RichCoreNotify(path)] + action;
    var rq := RequestDialog(NotifyNewDialog, [path]);
    if !notifyUi {
      assert t == [RichCoreNotify(path), UploadFiles(env.allCores)];
      CountTwo(RichCoreNotify(path), UploadFiles(env.allCores), IsRichCoreNotify);
      CountTwo(RichCoreNotify(path), UploadFiles(env.allCores), IsRemoveFile);
    } else if !NeedsRegistrationCheck(env.dialogReply) {
      assert t == [RichCoreNotify(path), rq];
      CountTwo(RichCoreNotify(path), rq, IsRichCoreNotify);
      CountTwo(RichCoreNotify(path), rq, IsRemoveFile);
      CountTwo(RichCoreNotify(path), rq, IsRequestDialog);
      CountTwo(RichCoreNotify(path), rq, IsUploadFiles);
      CountTwo(RichCoreNotify(path), rq, IsShowNotification);
    } else if UiNotified(env.dialogReply, env.dialogRegistered) {
      assert t == [RichCoreNotify(path), rq, QueryDialogServerRegistered];
      CountThree(RichCoreNotify(path), rq, QueryDialogServerRegistered, IsRichCoreNotify);
      CountThree(RichCoreNotify(path), rq, QueryDialogServerRegistered, IsRemoveFile);
      CountThree(RichCoreNotify(path), rq, QueryDialogServerRegistered, IsRequestDialog);
      CountThree(RichCoreNotify(path), rq, QueryDialogServerRegistered, IsUploadFiles);
      CountThree(RichCoreNotify(path), rq, QueryDialogServerRegistered, IsShowNotification);
    } else {
      assert t == [RichCoreNotify(path), rq, QueryDialogServerRegistered, FALLBACK_NOTIFICATION];
      CountFour(RichCoreNotify(path), rq, QueryDialogServerRegistered, FALLBACK_NOTIFICATION, IsRichCoreNotify);
      CountFour(RichCoreNotify(path), rq, QueryDialogServerRegistered, FALLBACK_NOTIFICATION, IsRemoveFile);
      CountFour(RichCoreNotify(path), rq, QueryDialogServerRegistered, FALLBACK_NOTIFICATION, IsRequestDialog);
      CountFour(RichCoreNotify(path), rq, QueryDialogServerRegistered, FALLBACK_NOTIFICATION, IsUploadFiles);
      CountFour(RichCoreNotify(path), rq, QueryDialogServerRegistered, FALLBACK_NOTIFICATION, IsShowNotification);
    }
  }

  lemma CountTwo(a: Effect, b: Effect, p: Effect -> bool)
    ensures Count([a, b], p) == (if p(a) then 1 else 0) + (if p(b) then 1 else 0)
  {
    assert [a, b][1..] == [b];
    CountSingleton(b, p);
  }

  lemma CountThree(a: Effect, b: Effect, c: Effect, p: Effect -> bool)
    ensures Count([a, b, c], p) == (if p(a) then 1 else 0) + (if p(b) then 1 else 0) + (if p(c) then 1 else 0)
  {
    assert [a, b, c][1..] == [b, c];
    CountTwo(b, c, p);
  }

  lemma CountFour(a: Effect, b: Effect, c: Effect, d: Effect, p: Effect -> bool)
    ensures Count([a, b, c, d], p) ==
      (if p(a) then 1 else 0) + (if p(b) then 1 else 0) + (if p(c) then 1 else 0) + (if p(d) then 1 else 0)
  {
    assert [a, b, c, d][1..] == [b, c, d];
    CountThree(b, c, d, p);
  }

  // ---------------------------------------------------------------------
  // The daemon monitor object
  // ---------------------------------------------------------------------

  class Monitor {
    /** The number of similar cores after which further ones are deleted under auto-delete. */
    const maxSimilar: int
    var autoDelete: bool
    var autoUpload: bool
    /** The handled-cores history, in insertion order; it lives as long as the daemon. */
    var handled: seq<HandledRichCore>
    /** Everything the daemon has done to the outside world, oldest first. */
    var trace: seq<Effect>

    constructor (maxSimilar: int)
      ensures this.maxSimilar == maxSimilar
      ensures !autoDelete && !autoUpload && handled == [] && trace == []
    {
      this.maxSimilar := maxSimilar;
      autoDelete, autoUpload := false, false;
      handled, trace := [], [];
    }

    /** checkForDuplicates for the core whose name parses to `info` and whose size is `size`. */
    method CheckForDuplicates(info: CrashInfo, size: nat) returns (suppress: bool)
      modifies this`handled
      ensures Verdict(handled, suppress) == DuplicateCheck(old(handled), NewHandledRichCore(info, size), maxSimilar)
    {
      var core := NewHandledRichCore(info, size);
      var i := 0;
      while i < |handled|
        invariant 0 <= i <= |handled|
        invariant handled == old(handled)
        invariant forall j :: 0 <= j < i ==> !Matches(handled[j], core)
      {
        if Matches(handled[i], core) {
          var entry := handled[i].(count := handled[i].count + 1);
          handled := handled[i := entry];
          suppress := entry.count >= maxSimilar;
          return;
        }
        i := i + 1;
      }
      handled := handled + [core.(count := core.count + 1)];
      suppress := false;
    }

    /** notifyCrashReporterUI: `reply` answers the request and `registered` the registration query. */
    method NotifyCrashReporterUI(dialog: DialogType, arguments: seq<string>, reply: DBusReply, registered: bool)
      returns (ok: bool)
      modifies this`trace
      ensures ok == UiNotified(reply, registered)
      ensures trace == old(trace) + UiNotifyEffects(dialog, arguments, reply)
    {
      trace := trace + [RequestDialog(dialog, arguments)];
      if reply.ErrorReply? {
        if reply.name != CHILD_SIGNALED {
          trace := trace + [QueryDialogServerRegistered];
          if !registered {
            return false;
          }
        }
      }
      return true;
    }

    /** notifyAutoUploader: one upload request carrying `files`, answered by `reply`. */
    method NotifyAutoUploader(files: seq<string>, reply: DBusReply) returns (ok: bool)
      modifies this`trace
      ensures ok == UploaderNotified(reply)
      ensures trace == old(trace) + [UploadFiles(files)]
    {
      trace := trace + [UploadFiles(files)];
      if reply.ErrorReply? {
        return false;
      }
      return true;
    }

    /** handleDirectoryChanged for one change event, the outside world answering as `env` says. */
    method HandleDirectoryChanged(env: Environment)
      modifies this`handled, this`trace
      ensures var o := DirectoryChanged(autoDelete, autoUpload, old(handled), maxSimilar, env);
        trace == old(trace) + o.effects && handled == o.history
    {
      if env.dirExists {
        var filePath := env.newCore;
        if filePath != "" {
          var suppressed := false;
          if autoDelete {
            suppressed := CheckForDuplicates(env.coreInfo, env.coreSize);
          }
          if suppressed {
            trace := trace + [RemoveFile(filePath)];
            return;
          }
          ghost var before := trace;
          trace := trace + [RichCoreNotify(filePath)];
          if !autoUpload {
            var launched := NotifyCrashReporterUI(NotifyNewDialog, [filePath], env.dialogReply, env.dialogRegistered);
            ghost var asked := UiNotifyEffects(NotifyNewDialog, [filePath], env.dialogReply);
            ghost var fallback := if launched then [] else [FALLBACK_NOTIFICATION];
            if !launched {
              trace := trace + [FALLBACK_NOTIFICATION];
            }
            ConcatAssociative(before, [RichCoreNotify(filePath)], asked);
            ConcatAssociative(before + [RichCoreNotify(filePath)], asked, fallback);
            ConcatAssociative([RichCoreNotify(filePath)], asked, fallback);
            ConcatAssociative(before, [RichCoreNotify(filePath)], asked + fallback);
            assert trace == before + ([RichCoreNotify(filePath)] + (asked + fallback));
          } else {
            var fileList := env.allCores;
            var started := NotifyAutoUploader(fileList, env.uploaderReply);
            ConcatAssociative(before, [RichCoreNotify(filePath)], [UploadFiles(fileList)]);
          }
        }
      }
    }

    method AutoDeleteEnabled() returns (enabled: bool)
      ensures enabled == autoDelete
    {
      enabled := autoDelete;
    }

    method SetAutoDelete(state: bool)
      modifies this`autoDelete
      ensures autoDelete == state
    {
      autoDelete := state;
    }

    method AutoUploadEnabled() returns (enabled: bool)
      ensures enabled == autoUpload
    {
      enabled := autoUpload;
    }

    /** setAutoUpload: turning auto-upload off sends the auto-uploader exactly one quit request. */
    method SetAutoUpload(state: bool)
      modifies this`autoUpload, this`trace
      ensures autoUpload == state
      ensures trace == old(trace) + (if state then [] else [QuitAutoUploader])
      ensures Count(trace, IsQuitAutoUploader) == Count(old(trace), IsQuitAutoUploader) + (if state then 0 else 1)
    {
      ghost var before := trace;
      autoUpload := state;
      if !state {
        trace := trace + [QuitAutoUploader];
        CountAppend(before, [QuitAutoUploader], IsQuitAutoUploader);
        CountSingleton(QuitAutoUploader, IsQuitAutoUploader);
      } else {
        assert trace == before + [];
      }
    }
  }
}

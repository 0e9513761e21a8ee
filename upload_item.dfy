/**
 * One file queued for upload to the crash-report server: its status, its
 * last error message, the HTTP client it currently uses, and the
 * uploadFinished notification it emits when a transfer is over.
 *
 * HTTP clients are numbered in the order the item creates them. Calls the
 * item makes on a client, and the notifications it emits, are ItemEffects
 * appended to a trace; whether a client accepts a file, and the signals a
 * client sends back, are inputs.
 */
module UploadItem {
  import opened Common

  datatype ItemStatus = Waiting | Sending | Error | Finished | Cancelled

  /** The status's value in the C++ enumeration, which indexes the name table. */
  function StatusValue(s: ItemStatus): nat {
    match s
    case Waiting => 0
    case Sending => 1
    case Error => 2
    case Finished => 3
    case Cancelled => 4
  }

  const STATUS_STRINGS: seq<string> := ["Waiting", "Sending", "Error", "Finished", "Cancelled", "Unknown"]

  /** The status's name; every status has its own entry, and none reads "Unknown". */
  function StatusName(s: ItemStatus): (r: string)
    ensures StatusValue(s) < |STATUS_STRINGS| - 1
    ensures r != "Unknown"
  {
    STATUS_STRINGS[StatusValue(s)]
  }

  /** Distinct statuses have distinct names. */
  lemma StatusNamesDistinct(s: ItemStatus, t: ItemStatus)
    ensures StatusName(s) == StatusName(t) ==> s == t
  {
  }

  /** QFileInfo::fileName: what follows the last '/' of the path. */
  function FileName(path: string): (r: string)
    ensures |r| <= |path|
  {
    if path == [] || path[|path| - 1] == '/' then []
    else FileName(path[..|path| - 1]) + [path[|path| - 1]]
  }

  /** The file name is the longest suffix of the path without a '/'. */
  lemma {:induction false} FileNameIsLastComponent(path: string)
    ensures var r := FileName(path);
      |r| <= |path| && r == path[|path| - |r|..] &&
      (forall i :: 0 <= i < |r| ==> r[i] != '/') &&
      (|r| < |path| ==> path[|path| - |r| - 1] == '/')
  {
    if path != [] && path[|path| - 1] != '/' {
      var init := path[..|path| - 1];
      var last := path[|path| - 1];
      FileNameIsLastComponent(init);
      var q := FileName(init);
      var r := FileName(path);
      var n := |init| - |q|;
      assert r == q + [last];
      assert path == init + [last];
      assert r == path[n..] by {
        assert q == init[n..];
        assert path[n..] == init[n..] + [last];
      }
      assert forall i :: 0 <= i < |r| ==> r[i] != '/' by {
        forall i | 0 <= i < |r| ensures r[i] != '/' {
          if i < |q| { assert r[i] == q[i]; }
        }
      }
      if n > 0 {
        assert path[n - 1] == init[n - 1];
      }
    }
  }

  datatype ItemEffect =
    | InitSession(client: nat)
    | Upload(client: nat, path: string)
    | CancelTransfer(client: nat)
    | UploadFinished
    | Done

  predicate IsUploadFinished(e: ItemEffect) { e.UploadFinished? }
  predicate IsTransportCall(e: ItemEffect) { e.InitSession? || e.Upload? || e.CancelTransfer? }

  /** The number of uploadFinished notifications in a trace. */
  function Notifications(trace: seq<ItemEffect>): nat {
    Count(trace, IsUploadFinished)
  }

  /** The number of calls made on HTTP clients in a trace. */
  function TransportCalls(trace: seq<ItemEffect>): nat {
    Count(trace, IsTransportCall)
  }

  lemma CountExtended(trace: seq<ItemEffect>, more: seq<ItemEffect>, p: ItemEffect -> bool)
    requires |more| <= 2
    ensures Count(trace + more, p) == Count(trace, p) + Count(more, p)
    ensures |more| == 1 ==> Count(more, p) == if p(more[0]) then 1 else 0
    ensures |more| == 2 ==> Count(more, p) == (if p(more[0]) then 1 else 0) + (if p(more[1]) then 1 else 0)
  {
    CountAppend(trace, more, p);
    if |more| == 1 {
      assert more == [more[0]];
      CountSingleton(more[0], p);
    } else if |more| == 2 {
      assert more == [more[0]] + [more[1]];
      CountAppend([more[0]], [more[1]], p);
      CountSingleton(more[0], p);
      CountSingleton(more[1], p);
    }
  }

  /** The mutable part of an item. */
  datatype ItemState = ItemState(
    status: ItemStatus,
    errorString: string,
    http: Option<nat>,     // the client the item currently points at, if any
    clients: nat,          // how many clients the item has created
    connected: set<nat>,   // the clients whose signals still reach the item
    trace: seq<ItemEffect>)

  /** A newly constructed item: waiting, no client, no error text, nothing emitted. */
  function Fresh(): ItemState {
    ItemState(Waiting, "", None, 0, {}, [])
  }

  /**
   * startUpload: a new client is created and wired to the item, asked to
   * open a session and to upload `path`; the item is Sending if the client
   * accepted the file, in Error otherwise.
   */
  function AfterStartUpload(s: ItemState, path: string, accepted: bool): (r: ItemState)
    ensures r.status == if accepted then Sending else Error
    ensures r.http == Some(s.clients) && r.clients == s.clients + 1
    ensures r.connected == s.connected + {s.clients}
    ensures r.errorString == s.errorString
    ensures r.trace == s.trace + [InitSession(s.clients), Upload(s.clients, path)]
    ensures Notifications(r.trace) == Notifications(s.trace)
    ensures TransportCalls(r.trace) == TransportCalls(s.trace) + 2
  {
    CountExtended(s.trace, [InitSession(s.clients), Upload(s.clients, path)], IsUploadFinished);
    CountExtended(s.trace, [InitSession(s.clients), Upload(s.clients, path)], IsTransportCall);
    ItemState(if accepted then Sending else Error, s.errorString, Some(s.clients), s.clients + 1,
              s.connected + {s.clients}, s.trace + [InitSession(s.clients), Upload(s.clients, path)])
  }

  /**
   * cancel: the status becomes Cancelled whatever it was; the current
   * client, if any, is asked to cancel; uploadFinished is emitted here only
   * when the item had not started, since no client would emit it.
   */
  function AfterCancel(s: ItemState): (r: ItemState)
    ensures r.status == Cancelled
    ensures r.errorString == s.errorString && r.http == s.http && r.clients == s.clients
    ensures r.connected == s.connected
    ensures Notifications(r.trace) == Notifications(s.trace) + (if s.status == Waiting then 1 else 0)
    ensures TransportCalls(r.trace) == TransportCalls(s.trace) + (if s.http.Some? then 1 else 0)
    ensures r.trace == s.trace + (if s.http.Some? then [CancelTransfer(s.http.value)] else [])
                               + (if s.status == Waiting then [UploadFinished] else [])
  {
    var calls := if s.http.Some? then [CancelTransfer(s.http.value)] else [];
    var emitted := if s.status == Waiting then [UploadFinished] else [];
    CountExtended(s.trace, calls + emitted, IsUploadFinished);
    CountExtended(s.trace, calls + emitted, IsTransportCall);
    ConcatAssociative(s.trace, calls, emitted);
    s.(status := Cancelled, trace := s.trace + (calls + emitted))
  }

  /**
   * uploadError: the failing client is unwired, the message is kept, the
   * status becomes Error unless the item was Cancelled, and exactly one
   * uploadFinished is emitted.
   */
  function AfterUploadError(s: ItemState, message: string): (r: ItemState)
    ensures r.errorString == message
    ensures r.status == if s.status == Cancelled then Cancelled else Error
    ensures r.http == s.http && r.clients == s.clients
    ensures r.connected == if s.http.Some? then s.connected - {s.http.value} else s.connected
    ensures r.trace == s.trace + [UploadFinished]
    ensures Notifications(r.trace) == Notifications(s.trace) + 1
    ensures TransportCalls(r.trace) == TransportCalls(s.trace)
  {
    CountExtended(s.trace, [UploadFinished], IsUploadFinished);
    CountExtended(s.trace, [UploadFinished], IsTransportCall);
    var unwired := if s.http.Some? then s.connected - {s.http.value} else s.connected;
    var status := if s.status != Cancelled then Error else s.status;
    s.(status := status, errorString := message, connected := unwired, trace := s.trace + [UploadFinished])
  }

  /** emitUploadFinished: the item is Finished and uploadFinished is emitted once. */
  function AfterUploadFinished(s: ItemState): (r: ItemState)
    ensures r.status == Finished
    ensures r.errorString == s.errorString && r.http == s.http && r.clients == s.clients
    ensures r.connected == s.connected
    ensures r.trace == s.trace + [UploadFinished]
    ensures Notifications(r.trace) == Notifications(s.trace) + 1
    ensures TransportCalls(r.trace) == TransportCalls(s.trace)
  {
    CountExtended(s.trace, [UploadFinished], IsUploadFinished);
    CountExtended(s.trace, [UploadFinished], IsTransportCall);
    s.(status := Finished, trace := s.trace + [UploadFinished])
  }

  /** What can happen to an item: its owner's calls, and signals from its clients. */
  datatype Input =
    | StartUpload(accepted: bool)
    | CancelUpload
    | HttpFinished(client: nat)
    | HttpError(client: nat, message: string)

  predicate IsTransportEvent(i: Input) { i.HttpFinished? || i.HttpError? }

  /** One input; a client's signal reaches the item only while that client is wired to it. */
  function Apply(s: ItemState, path: string, i: Input): (r: ItemState)
    ensures IsTransportEvent(i) && i.client !in s.connected ==> r == s
    ensures r.clients == s.clients + (if i.StartUpload? then 1 else 0)
    ensures r.connected <= s.connected + (if i.StartUpload? then {s.clients} else {})
    ensures i.CancelUpload? ==> r.status == Cancelled
    ensures Notifications(r.trace) <= Notifications(s.trace) + 1
    ensures |r.trace| >= |s.trace| && r.trace[..|s.trace|] == s.trace
  {
    match i
    case StartUpload(accepted) => AfterStartUpload(s, path, accepted)
    case CancelUpload => AfterCancel(s)
    case HttpFinished(c) => if c in s.connected then AfterUploadFinished(s) else s
    case HttpError(c, message) => if c in s.connected then AfterUploadError(s, message) else s
  }

  /**
   * A sequence of inputs, oldest first. What the item emitted stays in its
   * trace, and without a start no client is ever wired to it.
   */
  function Run(s: ItemState, path: string, inputs: seq<Input>): (r: ItemState)
    ensures |r.trace| >= |s.trace| && r.trace[..|s.trace|] == s.trace
    ensures NoStart(inputs) ==> r.clients == s.clients && r.connected <= s.connected
    decreases |inputs|
  {
    if inputs == [] then s
    else
      var s' := Apply(s, path, inputs[0]);
      TailFacts(inputs);
      var r := Run(s', path, inputs[1..]);
      assert r.trace[..|s.trace|] == r.trace[..|s'.trace|][..|s.trace|];
      r
  }

  predicate NoStart(inputs: seq<Input>) {
    forall k :: 0 <= k < |inputs| ==> !inputs[k].StartUpload?
  }

  /** A client that has reported success reports nothing more. */
  predicate NothingAfterFinished(inputs: seq<Input>) {
    forall k, l :: 0 <= k < l < |inputs| && inputs[k].HttpFinished? && IsTransportEvent(inputs[l]) ==>
      inputs[l].client != inputs[k].client
  }

  /**
   * The owner starts the item at most once, as its first action, and a
   * client says nothing after reporting success (it may report errors
   * more than once).
   */
  predicate WellBehaved(inputs: seq<Input>) {
    (|inputs| > 0 ==> NoStart(inputs[1..])) && NothingAfterFinished(inputs)
  }

  lemma TailFacts(inputs: seq<Input>)
    requires |inputs| > 0
    ensures NoStart(inputs) ==> NoStart(inputs[1..])
    ensures NothingAfterFinished(inputs) ==> NothingAfterFinished(inputs[1..])
    ensures NothingAfterFinished(inputs) && inputs[0].HttpFinished? ==>
      forall k :: 0 <= k < |inputs[1..]| && IsTransportEvent(inputs[1..][k]) ==>
        inputs[1..][k].client != inputs[0].client
  {
    if NothingAfterFinished(inputs) {
      if inputs[0].HttpFinished? {
        forall k | 0 <= k < |inputs[1..]| && IsTransportEvent(inputs[1..][k])
          ensures inputs[1..][k].client != inputs[0].client
        {
          assert inputs[1..][k] == inputs[k + 1];
        }
      }
      var tail := inputs[1..];
      forall k, l | 0 <= k < l < |tail| && tail[k].HttpFinished? && IsTransportEvent(tail[l])
        ensures tail[l].client != tail[k].client
      {
        assert tail[k] == inputs[k + 1] && tail[l] == inputs[l + 1];
      }
    }
  }

  /** No remaining input can make the item emit: not waiting, and no wired client will speak. */
  predicate Silent(s: ItemState, inputs: seq<Input>) {
    s.status != Waiting && NoStart(inputs) &&
    forall k :: 0 <= k < |inputs| && IsTransportEvent(inputs[k]) ==> inputs[k].client !in s.connected
  }

  lemma {:induction false} SilentRun(s: ItemState, path: string, inputs: seq<Input>)
    requires Silent(s, inputs)
    ensures Notifications(Run(s, path, inputs).trace) == Notifications(s.trace)
    decreases |inputs|
  {
    if inputs != [] {
      var s' := Apply(s, path, inputs[0]);
      assert Silent(s', inputs[1..]) by {
        TailFacts(inputs);
        forall k | 0 <= k < |inputs[1..]| && IsTransportEvent(inputs[1..][k])
          ensures inputs[1..][k].client !in s'.connected
        {
          assert inputs[1..][k] == inputs[k + 1];
        }
      }
      SilentRun(s', path, inputs[1..]);
    }
  }

  /** Once started, at most one more uploadFinished. */
  lemma {:induction false} StartedRun(s: ItemState, path: string, inputs: seq<Input>)
    requires s.status != Waiting && s.http.Some? && s.connected <= {s.http.value}
    requires NoStart(inputs) && NothingAfterFinished(inputs)
    ensures Notifications(Run(s, path, inputs).trace) <= Notifications(s.trace) + 1
    decreases |inputs|
  {
    if inputs != [] {
      TailFacts(inputs);
      var s' := Apply(s, path, inputs[0]);
      var tail := inputs[1..];
      match inputs[0]
      case CancelUpload =>
        StartedRun(s', path, tail);
      case HttpFinished(c) =>
        if c in s.connected {
          assert Silent(s', tail);
          SilentRun(s', path, tail);
        } else {
          StartedRun(s', path, tail);
        }
      case HttpError(c, message) =>
        if c in s.connected {
          assert s'.connected == {};
          SilentRun(s', path, tail);
        } else {
          StartedRun(s', path, tail);
        }
    }
  }

  /** Never started, at most one uploadFinished: the one cancel emits. */
  lemma {:induction false} WaitingRun(s: ItemState, path: string, inputs: seq<Input>)
    requires s.status == Waiting && s.connected == {}
    requires NoStart(inputs)
    ensures Notifications(Run(s, path, inputs).trace) <= Notifications(s.trace) + 1
    decreases |inputs|
  {
    if inputs != [] {
      TailFacts(inputs);
      var s' := Apply(s, path, inputs[0]);
      if inputs[0].CancelUpload? {
        assert Silent(s', inputs[1..]);
        SilentRun(s', path, inputs[1..]);
      } else {
        assert s' == s;
        WaitingRun(s', path, inputs[1..]);
      }
    }
  }

  /**
   * An item used as intended emits at most one uploadFinished over its
   * whole life, whichever of cancel, success and error comes first.
   */
  lemma AtMostOneNotification(path: string, inputs: seq<Input>)
    requires WellBehaved(inputs)
    ensures Notifications(Run(Fresh(), path, inputs).trace) <= 1
  {
    if inputs != [] {
      if inputs[0].StartUpload? {
        TailFacts(inputs);
        var s := Apply(Fresh(), path, inputs[0]);
        assert Run(Fresh(), path, inputs) == Run(s, path, inputs[1..]);
        StartedRun(s, path, inputs[1..]);
      } else {
        assert NoStart(inputs) by {
          forall k | 0 <= k < |inputs| ensures !inputs[k].StartUpload? {
            if k > 0 { assert inputs[k] == inputs[1..][k - 1]; }
          }
        }
        WaitingRun(Fresh(), path, inputs);
      }
    }
  }

  /** Cancelling an item that never started emits uploadFinished once and touches no client. */
  lemma CancelBeforeStart()
    ensures AfterCancel(Fresh()).status == Cancelled
    ensures AfterCancel(Fresh()).trace == [UploadFinished]
  {
  }

  /**
   * A client that refuses the file leaves the item in Error without any
   * uploadFinished, and a cancel afterwards emits none either: this item
   * never notifies.
   */
  lemma RefusedStartIsSilent(path: string)
    ensures var r := Run(Fresh(), path, [StartUpload(false), CancelUpload]);
      r.status == Cancelled && Notifications(r.trace) == 0
  {
    var s := AfterStartUpload(Fresh(), path, false);
    assert Run(Fresh(), path, [StartUpload(false), CancelUpload]) == Run(s, path, [CancelUpload]);
    assert [StartUpload(false), CancelUpload][1..] == [CancelUpload];
    assert [CancelUpload][1..] == [];
  }

  /**
   * After uploadError, its client is unwired: whatever that client sends
   * afterwards changes nothing, so no second uploadFinished comes from it.
   */
  lemma {:induction false} ErrorSilencesClient(s: ItemState, path: string, message: string, later: seq<Input>)
    requires s.http.Some?
    requires forall k :: 0 <= k < |later| ==> IsTransportEvent(later[k]) && later[k].client == s.http.value
    ensures Run(AfterUploadError(s, message), path, later) == AfterUploadError(s, message)
    decreases |later|
  {
    if later != [] {
      ErrorSilencesClient(s, path, message, later[1..]);
    }
  }

  /**
   * A failed transfer followed by a cancel: Error, the message kept, one
   * uploadFinished. The cancel emits nothing more, but it is not a no-op:
   * the status becomes Cancelled and the client is asked to cancel.
   */
  lemma ErrorThenCancel(s: ItemState, message: string)
    requires s.status == Sending && s.http.Some?
    ensures AfterUploadError(s, message).status == Error
    ensures AfterUploadError(s, message).errorString == message
    ensures Notifications(AfterCancel(AfterUploadError(s, message)).trace) == Notifications(s.trace) + 1
    ensures AfterCancel(AfterUploadError(s, message)).status == Cancelled
    ensures TransportCalls(AfterCancel(AfterUploadError(s, message)).trace) == TransportCalls(s.trace) + 1
    ensures AfterCancel(AfterUploadError(s, message)).trace == s.trace + [UploadFinished, CancelTransfer(s.http.value)]
  {
    ConcatAssociative(s.trace, [UploadFinished], [CancelTransfer(s.http.value)]);
  }

  class UploadItem {
    const filepath: string
    const filename: string
    const filesize: int
    var errorString: string
    var status: ItemStatus
    var http: Option<nat>
    var clients: nat
    var connected: set<nat>
    var trace: seq<ItemEffect>

    function State(): ItemState
      reads this
    {
      ItemState(status, errorString, http, clients, connected, trace)
    }

    /** An item for the file at `file`, whose size on disk is `size`. */
    constructor (file: string, size: int)
      ensures filepath == file && filename == FileName(file) && filesize == size
      ensures State() == Fresh()
    {
      filepath := file;
      filename := FileName(file);
      filesize := size;
      errorString := "";
      http := None;
      clients := 0;
      connected := {};
      trace := [];
      status := Waiting;
    }

    method Filesize() returns (size: int)
      ensures size == filesize
    {
      size := filesize;
    }

    method Filename() returns (name: string)
      ensures name == filename
    {
      name := filename;
    }

    method MarkDone()
      modifies this`trace
      ensures trace == old(trace) + [Done]
    {
      trace := trace + [Done];
    }

    method Status() returns (s: ItemStatus)
      ensures s == status
    {
      s := status;
    }

    method StatusString() returns (name: string)
      ensures name == StatusName(status)
    {
      name := STATUS_STRINGS[StatusValue(status)];
    }

    method ErrorString() returns (message: string)
      ensures message == errorString
    {
      message := errorString;
    }

    /** startUpload, the new client answering `accepted` to the upload request. */
    method StartUpload(accepted: bool) returns (ok: bool)
      modifies this
      ensures State() == AfterStartUpload(old(State()), filepath, accepted)
      ensures ok == accepted
    {
      var client := clients;
      clients := clients + 1;
      http := Some(client);
      connected := connected + {client};
      trace := trace + [InitSession(client)];
      trace := trace + [Upload(client, filepath)];
      if accepted {
        SetStatus(Sending);
        return true;
      }
      SetStatus(Error);
      return false;
    }

    method Cancel()
      modifies this`status, this`trace
      ensures State() == AfterCancel(old(State()))
    {
      var previousStatus := status;
      SetStatus(Cancelled);
      if http.Some? {
        trace := trace + [CancelTransfer(http.value)];
      }
      if previousStatus == Waiting {
        trace := trace + [UploadFinished];
      }
    }

    method SetStatus(s: ItemStatus)
      modifies this`status
      ensures status == s
    {
      status := s;
    }

    /** The uploadError slot: `file` is ignored, `message` is kept. */
    method UploadError(file: string, message: string)
      modifies this`connected, this`errorString, this`status, this`trace
      ensures State() == AfterUploadError(old(State()), message)
    {
      if http.Some? {
        connected := connected - {http.value};
      }
      SetErrorString(message);
      if status != Cancelled {
        SetStatus(Error);
      }
      trace := trace + [UploadFinished];
    }

    /** The emitUploadFinished slot. */
    method EmitUploadFinished()
      modifies this`status, this`trace
      ensures State() == AfterUploadFinished(old(State()))
    {
      SetStatus(Finished);
      trace := trace + [UploadFinished];
    }

    method SetErrorString(message: string)
      modifies this`errorString
      ensures errorString == message
    {
      errorString := message;
    }

    /** Client `client` signals that its upload finished; it reaches the slot only while wired. */
    method HttpClientFinished(client: nat)
      modifies this`status, this`trace
      ensures State() == Apply(old(State()), filepath, HttpFinished(client))
    {
      if client in connected {
        EmitUploadFinished();
      }
    }

    /** Client `client` signals an upload error; it reaches the slot only while wired. */
    method HttpClientError(client: nat, file: string, message: string)
      modifies this`connected, this`errorString, this`status, this`trace
      ensures State() == Apply(old(State()), filepath, HttpError(client, message))
    {
      if client in connected {
        UploadError(file, message);
      }
    }
  }
}

/// The execution controller of the interactive code block
/// (src/components/InteractiveCodeBlock.tsx): `handleRun`, `executeCode`
/// with its message, error and timeout handlers, and the effects that cancel
/// a run when the initial code changes or the block unmounts.
///
/// The browser's workers and timers are events: each method below is one
/// event handler run to completion, followed by the `handleRun`
/// continuation that a settled promise schedules. The worker itself is the
/// `Sandbox` model; what it posts arrives as a `Sandbox.Reply`.
module Execution {
  import opened JsString
  import opened Wrappers
  import Sandbox

  const BlankCodeMessage := "コードを入力してください"
  const SpawnFailureMessage := "コード実行環境の初期化に失敗しました。Workerファイルが見つかりません。"
  const TimeoutMessage := "実行がタイムアウトしました（10秒以内に完了してください）"
  const TimeoutMillis := 10000

  function WorkerErrorMessage(message: string): (r: string)
    ensures IsPrefix("Workerエラー: ", r)
  {
    "Workerエラー: " + (if message == "" then "不明なエラー" else message)
  }

  /** The state of the promise `executeCode` returned for one id. */
  datatype Settlement = Pending | Resolved(result: string) | Rejected(message: string)

  /** One interactive code block together with the module-level state of
      the file it lives in (`workerIdCounter`, `activeWorkers`). */
  class CodeBlock {
    /** `workerIdCounter`: the next execution id. */
    var counter: nat
    /** The keys of `activeWorkers`. */
    var active: set<nat>
    /** The ids whose 10-second timeout is still scheduled. */
    var armed: set<nat>
    /** The id held by `currentWorkerRef.current`, if any. */
    var slot: Option<nat>
    /** Every promise `executeCode` has returned, by id. */
    var promises: map<nat, Settlement>
    /** The code each run sent with `postMessage({code, id})`. */
    var posted: map<nat, string>
    /** The arguments `onCheck` has been called with, in order. */
    var checked: seq<string>
    var initialCode: string
    var code: string
    var output: string
    var error: string
    var isRunning: bool
    var mounted: bool

    ghost predicate Valid()
      reads this
    {
      && (slot.None? ==> active == {} && armed == {})
      && (slot.Some? ==>
            && active == {slot.value} && armed == {slot.value}
            && slot.value in promises && promises[slot.value] == Pending
            && slot.value in posted
            && output == "" && error == "")
      && (forall i :: i in promises ==> i < counter)
      && (mounted ==> (isRunning <==> slot.Some?))
    }

    /** No promise changes except, possibly, the one of the run `s`. */
    twostate predicate OnlySettles(s: Option<nat>)
      reads this
    {
      forall i :: i in old(promises) ==>
        i in promises && (promises[i] != old(promises)[i] ==> s == Some(i))
    }

    /** Mounting a block; `firstId` is the module counter at that time. */
    constructor(initial: string, firstId: nat)
      ensures Valid()
      ensures counter == firstId && active == {} && armed == {} && slot == None
      ensures promises == map[] && posted == map[] && checked == []
      ensures initialCode == initial && code == initial && output == "" && error == ""
      ensures !isRunning && mounted
    {
      counter := firstId;
      active := {};
      armed := {};
      slot := None;
      promises := map[];
      posted := map[];
      checked := [];
      initialCode := initial;
      code := initial;
      output := "";
      error := "";
      isRunning := false;
      mounted := true;
    }

    /** Clears the timeout, terminates the worker, drops it from
      `activeWorkers` and empties the slot. The promise is left alone. */
    method Cancel()
      requires Valid()
      modifies this
      ensures slot == None && active == {} && armed == {}
      ensures counter == old(counter) && promises == old(promises) && posted == old(posted)
      ensures checked == old(checked) && initialCode == old(initialCode) && code == old(code)
      ensures output == old(output) && error == old(error)
      ensures isRunning == old(isRunning) && mounted == old(mounted)
    {
      if slot.Some? {
        armed := armed - {slot.value};
        active := active - {slot.value};
        slot := None;
      }
    }

    /** The user edits the code. */
    method Edit(newCode: string)
      requires Valid()
      modifies this
      ensures Valid()
      ensures code == newCode
      ensures counter == old(counter) && active == old(active) && armed == old(armed)
      ensures slot == old(slot) && promises == old(promises) && posted == old(posted)
      ensures checked == old(checked) && initialCode == old(initialCode)
      ensures output == old(output) && error == old(error)
      ensures isRunning == old(isRunning) && mounted == old(mounted)
    {
      code := newCode;
    }

    /** `handleReset`: back to the initial code, output and error cleared;
        a running execution goes on. */
    method Reset()
      requires Valid()
      modifies this
      ensures Valid()
      ensures code == initialCode && output == "" && error == ""
      ensures counter == old(counter) && active == old(active) && armed == old(armed)
      ensures slot == old(slot) && promises == old(promises) && posted == old(posted)
      ensures checked == old(checked) && initialCode == old(initialCode)
      ensures isRunning == old(isRunning) && mounted == old(mounted)
    {
      code := initialCode;
      output := "";
      error := "";
    }

    /** The run button. `spawnOk` says whether `new Worker(...)` succeeds. */
    method Run(spawnOk: bool)
      requires Valid() && mounted
      modifies this
      ensures Valid()
      ensures OnlySettles(None)
      ensures old(isRunning) ==>
                counter == old(counter) && slot == old(slot) && promises == old(promises)
                && error == old(error) && output == old(output) && isRunning
      ensures !old(isRunning) && IsBlank(old(code)) ==>
                error == BlankCodeMessage && counter == old(counter) && slot == old(slot)
                && promises == old(promises) && output == old(output) && !isRunning
      ensures !old(isRunning) && !IsBlank(old(code)) ==>
                && counter == old(counter) + 1
                && old(counter) !in old(promises)
                && promises.Keys == old(promises).Keys + {old(counter)}
                && error == "" && output == ""
                && (spawnOk ==>
                      slot == Some(old(counter)) && promises[old(counter)] == Pending
                      && posted == old(posted)[old(counter) := old(code)] && isRunning)
                && (!spawnOk ==>
                      slot == None && promises[old(counter)] == Rejected(SpawnFailureMessage)
                      && posted == old(posted) && !isRunning)
      ensures !old(isRunning) ==> active <= {old(counter)} && armed <= {old(counter)}
      ensures checked == old(checked) && code == old(code) && initialCode == old(initialCode)
      ensures mounted
    {
      if isRunning {
        return;
      }
      if IsBlank(code) {
        error := BlankCodeMessage;
        return;
      }
      Cancel();
      isRunning := true;
      error := "";
      output := "";
      ExecuteCode(spawnOk);
    }

    /** `executeCode`: take the next id, spawn the worker, arm its timeout,
        fill the slot and post the code. The caller has emptied the slot. */
    method ExecuteCode(spawnOk: bool)
      requires slot == None && active == {} && armed == {}
      requires forall i :: i in promises ==> i < counter
      requires mounted && isRunning && output == "" && error == ""
      modifies this
      ensures Valid()
      ensures OnlySettles(None)
      ensures counter == old(counter) + 1
      ensures old(counter) !in old(promises)
      ensures promises.Keys == old(promises).Keys + {old(counter)}
      ensures spawnOk ==>
                slot == Some(old(counter)) && promises[old(counter)] == Pending
                && posted == old(posted)[old(counter) := code] && isRunning
      ensures !spawnOk ==>
                slot == None && promises[old(counter)] == Rejected(SpawnFailureMessage)
                && posted == old(posted) && !isRunning
      ensures active <= {old(counter)} && armed <= {old(counter)}
      ensures error == "" && output == "" && checked == old(checked)
      ensures code == old(code) && initialCode == old(initialCode) && mounted
    {
      var id := counter;
      assert id !in promises;
      counter := counter + 1;
      if !spawnOk {
        promises := promises[id := Rejected(SpawnFailureMessage)];
        // the rejection reaches `handleRun` with `executionId` still null:
        // no error is shown, and `finally` stops the spinner
        isRunning := false;
        return;
      }
      active := active + {id};
      armed := armed + {id};
      slot := Some(id);
      promises := promises[id := Pending];
      posted := posted[id := code];
    }

    /** A message event from worker `worker`. The guard compares the slot
        with the handler's own id; the id echoed in the message is never read. */
    method Deliver(worker: nat, msg: Sandbox.Reply)
      requires Valid()
      modifies this
      ensures Valid()
      ensures OnlySettles(Some(worker))
      ensures old(slot) != Some(worker) ==>
                active == old(active) && armed == old(armed) && slot == old(slot)
                && promises == old(promises) && checked == old(checked)
                && output == old(output) && isRunning == old(isRunning)
      ensures old(slot) == Some(worker) ==>
                slot == None && active == {} && armed == {} && !isRunning
                && (msg.Succeeded? ==>
                      promises == old(promises)[worker := Resolved(msg.output)]
                      && output == msg.output
                      && checked == old(checked) + [old(posted)[worker]])
                && (msg.Failed? ==>
                      promises == old(promises)[worker := Rejected(Sandbox.OrFallback(msg.error))]
                      && output == old(output) && checked == old(checked))
      ensures error == old(error)
      ensures old(slot) == Some(worker) ==> error == ""
      ensures counter == old(counter) && posted == old(posted) && code == old(code)
      ensures initialCode == old(initialCode) && mounted == old(mounted)
    {
      if slot != Some(worker) {
        return;
      }
      if msg.Succeeded? {
        Settle(worker, Resolved(msg.output));
        // `handleRun` resumes: executionId is set, the output shown and
        // `onCheck` called with the code this run sent
        output := msg.output;
        checked := checked + [posted[worker]];
      } else {
        Settle(worker, Rejected(Sandbox.OrFallback(msg.error)));
      }
    }

    /** The common tail of the message and error handlers once the guard
        holds: clear the timeout, terminate the worker, drop it from
        `activeWorkers`, empty the slot and settle the promise; the `finally`
        of `handleRun` then stops the spinner. */
    method Settle(worker: nat, s: Settlement)
      requires Valid() && slot == Some(worker) && !s.Pending?
      modifies this
      ensures Valid()
      ensures OnlySettles(Some(worker))
      ensures slot == None && active == {} && armed == {} && !isRunning
      ensures promises == old(promises)[worker := s]
      ensures error == old(error) && error == "" && output == old(output) && checked == old(checked)
      ensures counter == old(counter) && posted == old(posted) && code == old(code)
      ensures initialCode == old(initialCode) && mounted == old(mounted)
    {
      armed := {};
      active := {};
      slot := None;
      promises := promises[worker := s];
      isRunning := false;
    }

    /** An error event from worker `worker`. */
    method WorkerError(worker: nat, message: string)
      requires Valid()
      modifies this
      ensures Valid()
      ensures OnlySettles(Some(worker))
      ensures old(slot) != Some(worker) ==>
                active == old(active) && armed == old(armed) && slot == old(slot)
                && promises == old(promises) && isRunning == old(isRunning)
      ensures old(slot) == Some(worker) ==>
                slot == None && active == {} && armed == {} && !isRunning
                && promises == old(promises)[worker := Rejected(WorkerErrorMessage(message))]
                && error == ""
      ensures error == old(error) && output == old(output) && checked == old(checked)
      ensures counter == old(counter) && posted == old(posted) && code == old(code)
      ensures initialCode == old(initialCode) && mounted == old(mounted)
    {
      if slot != Some(worker) {
        return;
      }
      Settle(worker, Rejected(WorkerErrorMessage(message)));
    }

    /** The 10-second timeout of run `id` fires; only a scheduled one can. */
    method Timeout(id: nat)
      requires Valid() && id in armed
      modifies this
      ensures Valid()
      ensures OnlySettles(Some(id))
      ensures old(slot) == Some(id)
      ensures slot == None && active == {} && armed == {} && !isRunning
      ensures promises == old(promises)[id := Rejected(TimeoutMessage)]
      ensures error == "" && error == old(error) && output == old(output) && checked == old(checked)
      ensures counter == old(counter) && posted == old(posted) && code == old(code)
      ensures initialCode == old(initialCode) && mounted == old(mounted)
    {
      // a scheduled timeout belongs to the run in the slot
      assert slot == Some(id) && active == {id} && promises[id] == Pending;
      armed := armed - {id};
      if id in active {
        active := active - {id};
      }
      if slot == Some(id) {
        slot := None;
      }
      if promises[id] == Pending {
        promises := promises[id := Rejected(TimeoutMessage)];
      }
      isRunning := false;
    }

    /** The `initialCode` prop changes: the run in progress is abandoned
        and the block starts over with the new code. */
    method ChangeInitialCode(newInitial: string)
      requires Valid()
      modifies this
      ensures Valid()
      ensures OnlySettles(None)
      ensures promises == old(promises)
      ensures slot == None && active == {} && armed == {}
      ensures initialCode == newInitial && code == newInitial
      ensures output == "" && error == "" && !isRunning
      ensures counter == old(counter) && posted == old(posted) && checked == old(checked)
      ensures mounted == old(mounted)
    {
      Cancel();
      initialCode := newInitial;
      code := newInitial;
      output := "";
      error := "";
      isRunning := false;
    }

    /** The block unmounts: the run in progress is abandoned. */
    method Unmount()
      requires Valid()
      modifies this
      ensures Valid()
      ensures OnlySettles(None)
      ensures promises == old(promises)
      ensures slot == None && active == {} && armed == {} && !mounted
      ensures counter == old(counter) && posted == old(posted) && checked == old(checked)
      ensures code == old(code) && initialCode == old(initialCode)
      ensures output == old(output) && error == old(error) && isRunning == old(isRunning)
    {
      Cancel();
      mounted := false;
    }
  }
}

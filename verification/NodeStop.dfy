/** `stop` of the Node client: each session gets up to three disconnect attempts with growing pauses, then
    the connection, socket and server process are given up, and all errors are collected. */
module NodeStop {
  import opened Wrappers

  /** How attempt number `attempt` (from 1) to disconnect session number `session` ends: an error message,
      or nothing when it works. */
  type World = (nat, nat) -> Option<string>

  datatype Try = Try(session: nat, attempt: nat)

  datatype ConnState = NotConnected | IsConnected

  /** What the environment does to the three clean-up calls after the sessions. */
  datatype Cleanup = Cleanup(dispose: Option<string>, end: Option<string>, kill: Option<string>)

  // ---------- reference: one session ----------

  /** The number of attempts a session needs: up to its first success, at most three. */
  function Attempts(w: World, s: nat): (n: nat)
    ensures 1 <= n <= 3
  {
    if w(s, 1).None? then 1 else if w(s, 2).None? then 2 else 3
  }

  predicate AllFail(w: World, s: nat) {
    w(s, 1).Some? && w(s, 2).Some? && w(s, 3).Some?
  }

  function Tries(s: nat, n: nat): seq<Try> {
    seq(n, i requires 0 <= i < n => Try(s, i + 1))
  }

  /** Milliseconds waited before attempt `n`. */
  function Pauses(n: nat): nat {
    if n <= 1 then 0 else if n == 2 then 100 else 300
  }

  function Message(id: string, cause: string): string {
    "Failed to disconnect session " + id + " after 3 attempts: " + cause
  }

  function Errors(w: World, s: nat, id: string): seq<string> {
    if AllFail(w, s) then [Message(id, w(s, 3).value)] else []
  }

  // ---------- reference: all sessions ----------

  function AllTries(w: World, n: nat): seq<Try> {
    if n == 0 then [] else AllTries(w, n - 1) + Tries(n - 1, Attempts(w, n - 1))
  }

  function AllErrors(w: World, ids: seq<string>): seq<string> {
    if ids == [] then []
    else AllErrors(w, ids[..|ids| - 1]) + Errors(w, |ids| - 1, ids[|ids| - 1])
  }

  function AllPauses(w: World, n: nat): nat {
    if n == 0 then 0 else AllPauses(w, n - 1) + Pauses(Attempts(w, n - 1))
  }

  /** The error of a clean-up call, when the call is due and fails. */
  function Due(due: bool, prefix: string, e: Option<string>): seq<string> {
    if due && e.Some? then [prefix + e.value] else []
  }

  lemma OneMore(w: World, ids: seq<string>, s: nat)
    requires s < |ids|
    ensures AllErrors(w, ids[..s + 1]) == AllErrors(w, ids[..s]) + Errors(w, s, ids[s])
    ensures AllTries(w, s + 1) == AllTries(w, s) + Tries(s, Attempts(w, s))
    ensures AllPauses(w, s + 1) == AllPauses(w, s) + Pauses(Attempts(w, s))
    ensures AllFail(w, s) ==> w(s, 3).Some?
  {
    var next := ids[..s + 1];
    assert next[..|next| - 1] == ids[..s] && next[|next| - 1] == ids[s];
  }

  class CopilotClient {
    var sessions: seq<string>
    var connection: bool
    var modelsCache: Option<seq<string>>
    var socket: bool
    var cliProcess: bool
    const isExternalServer: bool
    var state: ConnState
    // what the environment sees: the disconnect calls, and the milliseconds waited
    var tries: seq<Try>
    var waited: nat

    constructor (isExternalServer: bool)
      ensures sessions == [] && !connection && !socket && !cliProcess && state == NotConnected
      ensures tries == [] && waited == 0
    {
      sessions, connection, modelsCache, socket, cliProcess := [], false, None, false, false;
      this.isExternalServer, state, tries, waited := isExternalServer, NotConnected, [], 0;
    }

    /** The retry loop of one session. */
    method DisconnectWithRetries(w: World, s: nat) returns (lastError: Option<string>)
      modifies this`tries, this`waited
      ensures lastError == if AllFail(w, s) then w(s, 3) else None
      ensures tries == old(tries) + Tries(s, Attempts(w, s))
      ensures waited == old(waited) + Pauses(Attempts(w, s))
    {
      lastError := None;
      var attempt := 1;
      while attempt <= 3
        invariant 1 <= attempt <= 4
        invariant forall a :: 1 <= a < attempt ==> w(s, a).Some?
        invariant lastError == if attempt == 1 then None else w(s, attempt - 1)
        invariant tries == old(tries) + Tries(s, attempt - 1)
        invariant waited == old(waited) + (if attempt == 1 then 0 else if attempt == 2 then 100 else 300)
      {
        tries := tries + [Try(s, attempt)];
        assert Tries(s, attempt) == Tries(s, attempt - 1) + [Try(s, attempt)];
        var outcome := w(s, attempt);
        if outcome.None? {
          lastError := None;
          break;
        }
        lastError := outcome;
        if attempt < 3 {
          waited := waited + 100 * (if attempt == 1 then 1 else 2);
        }
        attempt := attempt + 1;
      }
    }

    /** The loop over the sessions. */
    method DisconnectAll(w: World) returns (errors: seq<string>)
      modifies this`tries, this`waited
      ensures errors == AllErrors(w, sessions)
      ensures tries == old(tries) + AllTries(w, |sessions|)
      ensures waited == old(waited) + AllPauses(w, |sessions|)
    {
      hide Tries, Pauses;
      errors := [];
      for s := 0 to |sessions|
        invariant sessions == old(sessions)
        invariant errors == AllErrors(w, sessions[..s])
        invariant tries == old(tries) + AllTries(w, s)
        invariant waited == old(waited) + AllPauses(w, s)
      {
        OneMore(w, sessions, s);
        hide AllErrors, AllTries, AllPauses, Attempts, AllFail;
        ConcatAssoc(old(tries), AllTries(w, s), Tries(s, Attempts(w, s)));
        var lastError := DisconnectWithRetries(w, s);
        if lastError.Some? {
          errors := errors + [Message(sessions[s], lastError.value)];
        }
      }
      assert sessions[..|sessions|] == sessions;
    }

    /** The errors are exactly: one for each session all of whose three attempts failed, in session order and
        with the cause of the third, then those of the clean-up calls that were due. No session is tried again
        after a success, and only an external server's process handle is left. */
    method Stop(w: World, cleanup: Cleanup) returns (errors: seq<string>)
      modifies this
      ensures errors == AllErrors(w, old(sessions))
        + Due(old(connection), "Failed to dispose connection: ", cleanup.dispose)
        + Due(old(socket), "Failed to close socket: ", cleanup.end)
        + Due(old(cliProcess) && !isExternalServer, "Failed to kill CLI process: ", cleanup.kill)
      ensures tries == old(tries) + AllTries(w, |old(sessions)|)
      ensures waited == old(waited) + AllPauses(w, |old(sessions)|)
      ensures sessions == [] && !connection && modelsCache == None && !socket && state == NotConnected
      ensures cliProcess == (old(cliProcess) && isExternalServer)
    {
      hide AllErrors, AllTries, AllPauses;
      errors := DisconnectAll(w);
      sessions := [];
      if connection {
        if cleanup.dispose.Some? {
          errors := errors + ["Failed to dispose connection: " + cleanup.dispose.value];
        }
        connection := false;
      }
      modelsCache := None;
      if socket {
        if cleanup.end.Some? {
          errors := errors + ["Failed to close socket: " + cleanup.end.value];
        }
        socket := false;
      }
      if cliProcess && !isExternalServer {
        if cleanup.kill.Some? {
          errors := errors + ["Failed to kill CLI process: " + cleanup.kill.value];
        }
        cliProcess := false;
      }
      state := NotConnected;
    }
  }

  // ---------- what the references say ----------

  /** For n sessions there are between n and 3n attempts and at most 300n milliseconds of pauses; each of
      the bounds is met exactly when every session succeeds at once, or every one fails at least twice. */
  lemma {:induction false} EffortIsBounded(w: World, n: nat)
    ensures n <= |AllTries(w, n)| <= 3 * n
    ensures AllPauses(w, n) <= 300 * n
    ensures |AllTries(w, n)| == n <==> forall s :: 0 <= s < n ==> w(s, 1).None?
    ensures AllPauses(w, n) == 300 * n <==> forall s :: 0 <= s < n ==> w(s, 1).Some? && w(s, 2).Some?
  {
    if n > 0 {
      EffortIsBounded(w, n - 1);
    }
  }

  /** Attempt `a` on session `s` is made if and only if `a` is at most 3 and all earlier ones failed. */
  lemma {:induction false} TriedExactly(w: World, n: nat, s: nat, a: nat)
    ensures Try(s, a) in AllTries(w, n) <==> s < n && 1 <= a <= 3 && forall b :: 1 <= b < a ==> w(s, b).Some?
  {
    if n > 0 {
      TriedExactly(w, n - 1, s, a);
      var last := Tries(n - 1, Attempts(w, n - 1));
      if s == n - 1 && 1 <= a <= Attempts(w, s) {
        assert last[a - 1] == Try(s, a);
      }
      if s == n - 1 && 1 <= a <= 3 {
        assert w(s, 1).Some? && a > 1 ==> a == 2 || (w(s, 2).Some? <==> Attempts(w, s) == 3);
      }
    }
  }

  /** The sessions whose first attempt failed, and those whose first two did. */
  function FailedOnce(w: World, n: nat): set<nat> {
    set s: nat | s < n && w(s, 1).Some?
  }

  function FailedTwice(w: World, n: nat): set<nat> {
    set s: nat | s < n && w(s, 1).Some? && w(s, 2).Some?
  }

  /** 100 milliseconds are waited before each second attempt, 200 before each third, and nothing else. */
  lemma {:induction false} PausesExactly(w: World, n: nat)
    ensures AllPauses(w, n) == 100 * |FailedOnce(w, n)| + 200 * |FailedTwice(w, n)|
  {
    if n > 0 {
      PausesExactly(w, n - 1);
      FailedCount(w, n - 1);
      hide FailedOnce, FailedTwice;
    }
  }

  lemma FailedCount(w: World, s: nat)
    ensures |FailedOnce(w, s + 1)| == |FailedOnce(w, s)| + if w(s, 1).Some? then 1 else 0
    ensures |FailedTwice(w, s + 1)| == |FailedTwice(w, s)| + if w(s, 1).Some? && w(s, 2).Some? then 1 else 0
  {
    assert FailedOnce(w, s + 1) == if w(s, 1).Some? then FailedOnce(w, s) + {s} else FailedOnce(w, s);
    assert FailedTwice(w, s + 1) ==
      if w(s, 1).Some? && w(s, 2).Some? then FailedTwice(w, s) + {s} else FailedTwice(w, s);
  }

  function ErrorParts(w: World, ids: seq<string>): seq<seq<string>> {
    seq(|ids|, s requires 0 <= s < |ids| =>
      if w(s, 1).Some? && w(s, 2).Some? && w(s, 3).Some?
      then ["Failed to disconnect session " + ids[s] + " after 3 attempts: " + w(s, 3).value] else [])
  }

  /** The disconnect errors are those of exactly the sessions whose three attempts all failed, one each, in
      session order, naming the session and the cause of its third failure. */
  lemma {:induction false} ErrorsListFailures(w: World, ids: seq<string>) returns (at: seq<nat>)
    ensures Picks(ErrorParts(w, ids), AllErrors(w, ids), at)
  {
    if ids == [] {
      at := [];
    } else {
      var last := |ids| - 1;
      var part := Errors(w, last, ids[last]);
      assert AllErrors(w, ids) == AllErrors(w, ids[..last]) + part && |part| <= 1;
      hide AllErrors, AllFail, Message;
      var before := ErrorsListFailures(w, ids[..last]);
      assert ErrorParts(w, ids) == ErrorParts(w, ids[..last]) + [part];
      hide ErrorParts, Errors, Picks;
      PicksAppend(ErrorParts(w, ids[..last]), AllErrors(w, ids[..last]), before, part);
      at := if part == [] then before else before + [last];
    }
  }
}

/**
 The replay filters of the two signaling ends. Both keep the highest nonce they
 accepted; what a whole stream of nonces gets is the strict running maxima.
 */
module Replay {
  import opened Basics

  /** Whether a filter that last accepted `last` takes `nonce`. */
  predicate Fresh(last: Option<u64>, nonce: u64) {
    last.None? || nonce > last.value
  }

  function Advance(last: Option<u64>, nonce: u64): Option<u64> {
    if Fresh(last, nonce) then Some(nonce) else last
  }

  /** The state of a filter that started empty and saw `stream`. */
  function After(stream: seq<u64>): Option<u64> {
    if stream == [] then None else Advance(After(stream[..|stream| - 1]), stream[|stream| - 1])
  }

  /** Element `i` of the stream is larger than everything before it. */
  predicate RunningMaximum(stream: seq<u64>, i: nat)
    requires i < |stream|
  {
    forall j :: 0 <= j < i ==> stream[j] < stream[i]
  }

  /** The filter's state is the maximum of all it saw, accepted or not. */
  lemma {:induction false} AfterIsMaximum(stream: seq<u64>)
    ensures After(stream).None? <==> stream == []
    ensures stream != [] ==> After(stream).value in stream
    ensures stream != [] ==> forall j :: 0 <= j < |stream| ==> stream[j] <= After(stream).value
  {
    if stream != [] {
      var n := |stream| - 1;
      AfterIsMaximum(stream[..n]);
      assert forall j :: 0 <= j < n ==> stream[j] == stream[..n][j];
      if n > 0 && !Fresh(After(stream[..n]), stream[n]) {
        assert After(stream[..n]).value in stream[..n];
      }
    }
  }

  /** A nonce is accepted exactly when it is a strict running maximum of its stream. */
  lemma AcceptedIffRunningMaximum(stream: seq<u64>, i: nat)
    requires i < |stream|
    ensures Fresh(After(stream[..i]), stream[i]) <==> RunningMaximum(stream, i)
  {
    AfterIsMaximum(stream[..i]);
    assert forall j :: 0 <= j < i ==> stream[j] == stream[..i][j];
  }

  /** The nonces a filter accepts out of `stream`, in order. */
  function Accepted(stream: seq<u64>): seq<u64> {
    if stream == [] then [] else
    var n := |stream| - 1;
    Accepted(stream[..n]) + if Fresh(After(stream[..n]), stream[n]) then [stream[n]] else []
  }

  predicate StrictlyIncreasing(s: seq<nat>) {
    forall i, j :: 0 <= i < j < |s| ==> s[i] < s[j]
  }

  /** What gets through is strictly increasing and ends at the filter's state. */
  lemma {:induction false} AcceptedIncreases(stream: seq<u64>)
    ensures StrictlyIncreasing(Accepted(stream))
    ensures After(stream).None? <==> Accepted(stream) == []
    ensures Accepted(stream) != [] ==> After(stream).value == Accepted(stream)[|Accepted(stream)| - 1]
  {
    if stream != [] {
      AcceptedIncreases(stream[..|stream| - 1]);
    }
  }

  /** The relay's guard: `NonceGuard` of the signaling protocol package. */
  class NonceGuard {
    ghost const owner: nat // tells the guards of different connections apart
    var last: u64
    var hasLast: bool

    function View(): Option<u64>
      reads this
    {
      if hasLast then Some(last) else None
    }

    constructor (ghost owner: nat)
      ensures View() == None && this.owner == owner
    {
      this.owner := owner;
      last, hasLast := 0, false;
    }

    method Accept(nonce: u64) returns (ok: bool)
      modifies this
      ensures ok == Fresh(old(View()), nonce)
      ensures View() == Advance(old(View()), nonce)
    {
      if hasLast && nonce <= last {
        return false;
      }
      last := nonce;
      hasLast := true;
      return true;
    }
  }

  /** The agent's guard: `ReplayGuard` of the transport crate. */
  class ReplayGuard {
    var lastNonce: Option<u64>

    constructor ()
      ensures lastNonce == None
    {
      lastNonce := None;
    }

    method Accept(nonce: u64) returns (ok: bool)
      modifies this
      ensures ok == Fresh(old(lastNonce), nonce)
      ensures lastNonce == Advance(old(lastNonce), nonce)
    {
      match lastNonce {
        case Some(last) =>
          if nonce <= last {
            return false;
          }
        case None =>
      }
      lastNonce := Some(nonce);
      return true;
    }
  }
}

/**
  One-tap approval actions of internal/hub/approval_action.go: short-lived,
  single-use claims, and their application to the prompt a session shows.

  Claims carry their expiry in whole seconds, while the clock and the table of
  used nonces have nanoseconds. Signing is not part of this model: a verified
  claim is one that was issued.
 */
module OneTap {
  import opened Options
  import opened NativeApproval

  const SECOND: int := 1_000_000_000
  const TOKEN_TTL: int := 120 * SECOND

  datatype Action = Approve | Reject

  datatype Claim = Claim(approvalId: string, approvalSig: string, action: Action, expiresAt: int, nonce: string)

  datatype Error = Expired | AlreadyUsed | NoApproval | HighRisk | NoInput

  // Go's Time.Unix: whole seconds, rounded down.
  function Unix(now: int): int {
    now / SECOND
  }

  predicate HasExpired(c: Claim, now: int) {
    c.expiresAt <= Unix(now)
  }

  function Issue(approvalId: string, approvalSig: string, action: Action, nonce: string, now: int): Claim {
    Claim(approvalId, approvalSig, action, Unix(now + TOKEN_TTL), nonce)
  }

  // A used nonce is forgotten once its time has come; times carry nanoseconds here.
  function Pruned(used: map<string, int>, now: int): map<string, int> {
    map nonce | nonce in used && used[nonce] * SECOND > now :: used[nonce]
  }

  function Redeem(used: map<string, int>, c: Claim, now: int): (map<string, int>, Option<Error>) {
    var rest := Pruned(used, now);
    if HasExpired(c, now) then (rest, Some(Expired))
    else if c.nonce in rest then (rest, Some(AlreadyUsed))
    else (rest[c.nonce := c.expiresAt], None)
  }

  class OneTapApprovalManager {
    var used: map<string, int>

    constructor ()
      ensures used == map[]
    {
      used := map[];
    }

    method Consume(claim: Claim, now: int) returns (err: Option<Error>)
      modifies this`used
      ensures (used, err) == Redeem(old(used), claim, now)
      ensures err.None? ==> !HasExpired(claim, now) && claim.nonce in used
      ensures err == Some(Expired) <==> claim.expiresAt * 1_000_000_000 <= now
      ensures err == Some(AlreadyUsed) <==>
                && now < claim.expiresAt * 1_000_000_000
                && claim.nonce in old(used) && now < old(used)[claim.nonce] * 1_000_000_000
      ensures err.None? || err.value in {Expired, AlreadyUsed}
      ensures forall nonce | nonce in used :: used[nonce] * SECOND > now
    {
      var todo := used.Keys;
      while todo != {}
        invariant todo <= used.Keys <= old(used).Keys
        invariant forall nonce | nonce in used :: used[nonce] == old(used)[nonce]
        invariant forall nonce | nonce in old(used) && nonce !in todo :: nonce in used <==> old(used)[nonce] * SECOND > now
        decreases todo
      {
        var nonce :| nonce in todo;
        todo := todo - {nonce};
        if used[nonce] * SECOND <= now {
          used := used - {nonce};
        }
      }
      assert used == Pruned(old(used), now);
      ClocksAgree(claim, now);
      if claim.expiresAt <= Unix(now) {
        return Some(Expired);
      }
      if claim.nonce in used {
        return Some(AlreadyUsed);
      }
      used := used[claim.nonce := claim.expiresAt];
      return None;
    }
  }

  // The prompt on screen when the action is applied: its signature, its risk,
  // and the keys that approve or reject it ("" if unknown).
  datatype Screen = Screen(sig: string, highRisk: bool, approveInput: string, rejectInput: string)

  // The claim is for the prompt the session tracks, and that prompt is on screen.
  predicate Tracked(sig: string, claim: Claim, screen: Option<Screen>) {
    claim.approvalId == claim.approvalSig == sig && screen.Some? && screen.value.sig == sig
  }

  function InputFor(claim: Claim, screen: Screen): string {
    match claim.action case Approve => screen.approveInput case Reject => screen.rejectInput
  }

  // The action goes through only for the prompt that is both tracked and on
  // screen, and leaves everything as it was unless its input was delivered and
  // its nonce was fresh.
  method ApplyOneTapApproval(ses: SessionApproval, manager: OneTapApprovalManager, claim: Claim, screen: Option<Screen>,
                             connected: bool, delivers: bool, now: int)
    returns (err: Option<Error>, sent: Option<string>)
    requires screen.Some? ==> screen.value.sig != ""
    modifies ses`nativeApprovalSig, ses`clearMisses, ses`consumed, ses`consumedAt, manager`used
    // The first reason to refuse it counts, ...
    ensures err == Some(NoApproval) <==> !Tracked(old(ses.nativeApprovalSig), claim, screen)
    ensures err == Some(HighRisk) <==>
              Tracked(old(ses.nativeApprovalSig), claim, screen) && claim.action == Approve && screen.value.highRisk
    ensures err == Some(NoInput) <==>
              && Tracked(old(ses.nativeApprovalSig), claim, screen) && !(claim.action == Approve && screen.value.highRisk)
              && !(InputFor(claim, screen.value) != "" && connected && delivers)
    // ... and the claim is redeemed only after its input has been sent.
    ensures sent == if err.None? || err.value in {Expired, AlreadyUsed} then Some(InputFor(claim, screen.value)) else None
    ensures err.None? || err.value in {Expired, AlreadyUsed} ==> (manager.used, err) == Redeem(old(manager.used), claim, now)
    ensures err.None? ==> ses.State() == Next(old(ses.State()), Event.Consume(now, claim.approvalSig)).0
    ensures err.Some? ==> ses.State() == old(ses.State())
    ensures err.Some? && err.value in {NoApproval, HighRisk, NoInput} ==> manager.used == old(manager.used)
  {
    sent := None;
    if ses.nativeApprovalSig != claim.approvalSig || claim.approvalId != claim.approvalSig {
      return Some(NoApproval), None;
    }
    if screen.None? || screen.value.sig != claim.approvalSig {
      return Some(NoApproval), None;
    }
    if claim.action == Approve && screen.value.highRisk {
      return Some(HighRisk), None;
    }
    var input := if claim.action == Approve then screen.value.approveInput else screen.value.rejectInput;
    if input == "" || !connected || !delivers {
      return Some(NoInput), None;
    }
    sent := Some(input);
    err := manager.Consume(claim, now);
    if err.Some? {
      return;
    }
    ses.consumed := claim.approvalSig;
    ses.consumedAt := now;
    ses.nativeApprovalSig := "";
    ses.clearMisses := 0;
  }

  // --- lifetime -----------------------------------------------------------------------------

  // The two clocks agree: a nonce is forgotten exactly when its claim has expired.
  lemma {:induction false} ClocksAgree(c: Claim, now: int)
    ensures HasExpired(c, now) <==> c.expiresAt * SECOND <= now
  {
  }

  // A claim lives for at least 119 seconds and never for more than 120.
  lemma {:induction false} ClaimsLiveTwoMinutes(approvalId: string, approvalSig: string, action: Action, nonce: string, issued: int, now: int)
    requires issued <= now
    ensures var c := Issue(approvalId, approvalSig, action, nonce, issued);
            && (now <= issued + TOKEN_TTL - SECOND ==> !HasExpired(c, now))
            && (now >= issued + TOKEN_TTL ==> HasExpired(c, now))
            && (issued % SECOND == 0 && now < issued + TOKEN_TTL ==> !HasExpired(c, now))
  {
  }

  // --- single use over whole runs ---------------------------------------------------------

  datatype Try = Try(claim: Claim, now: int)

  ghost function After(tries: seq<Try>): map<string, int> {
    if tries == [] then map[]
    else Redeem(After(tries[..|tries| - 1]), tries[|tries| - 1].claim, tries[|tries| - 1].now).0
  }

  ghost predicate Succeeds(tries: seq<Try>, k: nat)
    requires k < |tries|
  {
    Redeem(After(tries[..k]), tries[k].claim, tries[k].now).1.None?
  }

  // The claims consumed so far.
  ghost function Consumed(tries: seq<Try>): set<Claim> {
    if tries == [] then {}
    else
      var n := |tries| - 1;
      Consumed(tries[..n]) + if Succeeds(tries, n) then {tries[n].claim} else {}
  }

  ghost predicate Ordered(tries: seq<Try>) {
    forall i, j | 0 <= i < j < |tries| :: tries[i].now <= tries[j].now
  }

  ghost predicate Remembers(used: map<string, int>, claims: set<Claim>, now: int) {
    && (forall c <- claims :: !HasExpired(c, now) ==> c.nonce in used && used[c.nonce] == c.expiresAt)
    && (forall nonce | nonce in used :: exists c <- claims :: c.nonce == nonce && c.expiresAt == used[nonce] && !HasExpired(c, now))
  }

  lemma {:induction false} RedeemRemembers(used: map<string, int>, claims: set<Claim>, earlier: int, c: Claim, now: int)
    requires Remembers(used, claims, earlier) && earlier <= now
    ensures var (used', err) := Redeem(used, c, now);
            Remembers(used', if err.None? then claims + {c} else claims, now)
  {
    hide HasExpired;
    var (used', err) := Redeem(used, c, now);
    var claims' := if err.None? then claims + {c} else claims;
    forall d: Claim
      ensures HasExpired(d, now) <==> d.expiresAt * SECOND <= now
      ensures HasExpired(d, earlier) ==> HasExpired(d, now)
    {
      ClocksAgree(d, now);
      ClocksAgree(d, earlier);
    }
    forall nonce | nonce in used'
      ensures exists d <- claims' :: d.nonce == nonce && d.expiresAt == used'[nonce] && !HasExpired(d, now)
    {
      if !(err.None? && nonce == c.nonce) {
        var d :| d in claims && d.nonce == nonce && d.expiresAt == used[nonce];
        assert d in claims';
      } else {
        assert c in claims';
      }
    }
  }

  // With a clock that never runs back, the table holds after every try exactly
  // the unexpired claims consumed so far.
  lemma {:induction false} TableIsExact(tries: seq<Try>)
    requires Ordered(tries) && tries != []
    ensures Remembers(After(tries), Consumed(tries), tries[|tries| - 1].now)
  {
    hide Remembers;
    var n := |tries| - 1;
    if n > 0 {
      TableIsExact(tries[..n]);
    } else {
      NothingConsumed(tries[n].now);
      assert tries[..n] == [];
    }
    RedeemRemembers(After(tries[..n]), Consumed(tries[..n]), if n > 0 then tries[n - 1].now else tries[n].now, tries[n].claim, tries[n].now);
    assert Consumed(tries[..n]) + {} == Consumed(tries[..n]);
  }

  lemma {:induction false} NothingConsumed(now: int)
    ensures Remembers(map[], {}, now)
  {
  }

  lemma {:induction false} SucceedsIsConsumed(tries: seq<Try>, k: nat)
    requires k < |tries| && Succeeds(tries, k)
    ensures tries[k].claim in Consumed(tries)
  {
    var n := |tries| - 1;
    if k < n {
      assert tries[..n][..k] == tries[..k];
      SucceedsIsConsumed(tries[..n], k);
    }
  }

  lemma {:induction false} ConsumedWasTried(tries: seq<Try>, c: Claim)
    requires c in Consumed(tries)
    ensures exists i :: 0 <= i < |tries| && tries[i].claim == c
  {
    var n := |tries| - 1;
    if c in Consumed(tries[..n]) {
      ConsumedWasTried(tries[..n], c);
      var i :| 0 <= i < n && tries[..n][i].claim == c;
      assert tries[i].claim == c;
    } else {
      assert tries[n].claim == c;
    }
  }

  lemma {:induction false} StillRemembered(tries: seq<Try>, j: nat)
    requires Ordered(tries) && 0 < j < |tries|
    ensures Remembers(Pruned(After(tries[..j]), tries[j].now), Consumed(tries[..j]), tries[j].now)
  {
    TableIsExact(tries[..j]);
    assert tries[j - 1].now <= tries[j].now;
    var late := Claim("", "", Approve, Unix(tries[j].now), "");
    RedeemRemembers(After(tries[..j]), Consumed(tries[..j]), tries[j - 1].now, late, tries[j].now);
  }

  // A claim is consumed at most once, although used nonces are forgotten.
  lemma {:induction false} ConsumedAtMostOnce(tries: seq<Try>, i: nat, j: nat)
    requires Ordered(tries) && i < j < |tries| && tries[i].claim == tries[j].claim && Succeeds(tries, i)
    ensures !Succeeds(tries, j)
  {
    StillRemembered(tries, j);
    assert tries[..j][..i] == tries[..i];
    SucceedsIsConsumed(tries[..j], i);
  }

  // And the first use of a live claim does succeed, if nonces are unique.
  lemma {:induction false} FirstUseSucceeds(tries: seq<Try>, j: nat)
    requires Ordered(tries) && j < |tries| && !HasExpired(tries[j].claim, tries[j].now)
    requires forall i | 0 <= i < j :: tries[i].claim.nonce != tries[j].claim.nonce
    ensures Succeeds(tries, j)
  {
    if j > 0 {
      StillRemembered(tries, j);
      forall c | c in Consumed(tries[..j])
        ensures c.nonce != tries[j].claim.nonce
      {
        ConsumedWasTried(tries[..j], c);
        var i :| 0 <= i < j && tries[..j][i].claim == c;
        assert tries[i].claim == c;
      }
    }
  }
}

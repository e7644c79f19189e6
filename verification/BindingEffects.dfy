/**
What requests to the handle server bring about, over whole runs: an account has the handle
it claimed and the key of its last accepted bind, a device the account it registered.
*/
module BindingEffects {
  import opened Common
  import opened Bindings

  function Prior(calls: seq<Call>): seq<Call>
    requires calls != []
  {
    calls[..|calls| - 1]
  }

  function Final(calls: seq<Call>): Call
    requires calls != []
  {
    calls[|calls| - 1]
  }

  /** What call `i` of the run is answered. */
  function AnswerAt(env: Env, calls: seq<Call>, i: nat): Outcome
    requires i < |calls|
  {
    Serve(env, Run(env, calls[..i]), calls[i].request, calls[i].now).0
  }

  predicate Rebinds(r: Request, account: string) { (r.Bind? || r.Unbind?) && r.account == account }

  // What an account has, told from the requests alone.

  /** The key of the last accepted bind or unbind. */
  function LastBound(env: Env, calls: seq<Call>, account: string): Option<Bytes>
    decreases |calls|
  {
    if calls == [] then None
    else if Rebinds(Final(calls).request, account) && AnswerAt(env, calls, |calls| - 1).Ok? then
      if Final(calls).request.Bind? then Final(calls).request.proof.key else None
    else LastBound(env, Prior(calls), account)
  }

  /** The handle of the accepted claim. */
  function LastClaimed(env: Env, calls: seq<Call>, account: string): Option<string>
    decreases |calls|
  {
    if calls == [] then None
    else
      var r := Final(calls).request;
      if r.Claim? && r.account == account && AnswerAt(env, calls, |calls| - 1).Ok? then ParseHandle(r.handle)
      else LastClaimed(env, Prior(calls), account)
  }

  /** Some call registered this device with this account. */
  predicate RegisteredAs(env: Env, calls: seq<Call>, device: Bytes, id: string) {
    exists i | 0 <= i < |calls| :: RegistersAt(env, calls, i, device, id)
  }

  /** Call `i` is the first accepted registration of the device. */
  predicate RegistersAt(env: Env, calls: seq<Call>, i: nat, device: Bytes, id: string)
    requires i < |calls|
  {
    var r := calls[i].request;
    && r.Register? && r.device == device && r.id == id && AnswerAt(env, calls, i).Ok?
    && device !in Run(env, calls[..i]).devices
  }

  // One request.

  /** Accounts other than that of the request are as they were. */
  ghost predicate OthersSame(before: map<string, Account>, after: map<string, Account>, account: string) {
    forall id | id != account :: (id in before <==> id in after) && (id in before ==> after[id] == before[id])
  }

  lemma BindEffect(env: Env, s: State, account: string, device: Bytes, p: Proof, now: nat)
    ensures var (r, after) := DoBind(env, s, account, device, p, now);
            && OthersSame(s.accounts, after.accounts, account) && after.devices == s.devices
            && (r.Ok? ==>
                  && account in s.accounts && account in after.accounts && p.key.Some? && r == Ok(p.key)
                  && after.accounts[account] == Account(s.accounts[account].handle, p.key))
            && (r.Err? ==> after.accounts == s.accounts)
  {
  }

  lemma UnbindEffect(env: Env, s: State, account: string, device: Bytes, p: Proof, now: nat)
    ensures var (r, after) := DoUnbind(env, s, account, device, p, now);
            && OthersSame(s.accounts, after.accounts, account) && after.devices == s.devices
            && (r.Ok? ==>
                  && account in s.accounts && account in after.accounts && r == Ok(None)
                  && after.accounts[account] == Account(s.accounts[account].handle, None))
            && (r.Err? ==> after.accounts == s.accounts)
  {
  }

  lemma ClaimEffect(s: State, account: string, text: string)
    ensures var (r, after) := DoClaim(s, account, text);
            && OthersSame(s.accounts, after.accounts, account) && after.devices == s.devices
            && (r.Ok? ==>
                  && account in s.accounts && account in after.accounts && ParseHandle(text).Some?
                  && after.accounts[account] == Account(ParseHandle(text), s.accounts[account].key))
            && (r.Err? ==> after.accounts == s.accounts)
  {
  }

  lemma RegisterEffect(s: State, device: Bytes, id: string, nameOk: bool)
    ensures var (r, after) := DoRegister(s, device, id, nameOk);
            if r.Ok? && device !in s.devices
            then && id !in s.accounts && after.accounts == s.accounts[id := Account(None, None)]
                 && after.devices == s.devices[device := id]
            else after.accounts == s.accounts && after.devices == s.devices
  {
  }

  // Runs.

  lemma LastCall(env: Env, calls: seq<Call>)
    requires calls != []
    ensures Run(env, calls) == Serve(env, Run(env, Prior(calls)), Final(calls).request, Final(calls).now).1
    ensures AnswerAt(env, calls, |calls| - 1) == Serve(env, Run(env, Prior(calls)), Final(calls).request, Final(calls).now).0
  {
  }

  /** One request changes an account in these ways only. */
  lemma OneRequest(env: Env, s: State, r: Request, now: nat, id: string)
    requires id in s.accounts
    ensures var (outcome, after) := Serve(env, s, r, now);
            && id in after.accounts
            && after.accounts[id].key
               == (if Rebinds(r, id) && outcome.Ok? then (if r.Bind? then r.proof.key else None) else s.accounts[id].key)
            && after.accounts[id].handle
               == (if r.Claim? && r.account == id && outcome.Ok? then ParseHandle(r.handle) else s.accounts[id].handle)
  {
    match r
    case Register(device, account, nameOk) => RegisterEffect(s, device, account, nameOk);
    case Claim(account, text) => ClaimEffect(s, account, text);
    case Bind(account, device, p) => BindEffect(env, s, account, device, p, now);
    case Unbind(account, device, p) => UnbindEffect(env, s, account, device, p, now);
  }

  /** An account appears with neither handle nor key, and no request to it was accepted before. */
  lemma NewAccount(env: Env, s: State, r: Request, now: nat, id: string)
    requires id !in s.accounts
    ensures var (outcome, after) := Serve(env, s, r, now);
            && (id in after.accounts ==> after.accounts[id] == Account(None, None))
            && ((Rebinds(r, id) || (r.Claim? && r.account == id)) ==> outcome.Err?)
  {
    match r
    case Register(device, account, nameOk) => RegisterEffect(s, device, account, nameOk);
    case Claim(account, text) => ClaimEffect(s, account, text);
    case Bind(account, device, p) => BindEffect(env, s, account, device, p, now);
    case Unbind(account, device, p) => UnbindEffect(env, s, account, device, p, now);
  }

  lemma {:induction false} NothingBefore(env: Env, calls: seq<Call>, id: string)
    requires id !in Run(env, calls).accounts
    ensures LastBound(env, calls, id) == None && LastClaimed(env, calls, id) == None
    decreases |calls|
  {
    if calls != [] {
      LastCall(env, calls);
      var s, last := Run(env, Prior(calls)), Final(calls);
      if id in s.accounts { OneRequest(env, s, last.request, last.now, id); }
      NewAccount(env, s, last.request, last.now, id);
      NothingBefore(env, Prior(calls), id);
    }
  }

  /** In every run an account has the key of its last accepted bind or unbind, and the handle it claimed. */
  lemma {:induction false} AccountIs(env: Env, calls: seq<Call>, id: string)
    requires id in Run(env, calls).accounts
    ensures Run(env, calls).accounts[id] == Account(LastClaimed(env, calls, id), LastBound(env, calls, id))
    decreases |calls|
  {
    LastCall(env, calls);
    var s, last := Run(env, Prior(calls)), Final(calls);
    if id in s.accounts {
      AccountIs(env, Prior(calls), id);
      OneRequest(env, s, last.request, last.now, id);
    } else {
      NewAccount(env, s, last.request, last.now, id);
      NothingBefore(env, Prior(calls), id);
    }
  }

  /** After call `i` no bind or unbind of the account is accepted. */
  predicate LeftAlone(env: Env, calls: seq<Call>, i: nat, account: string) {
    forall j | i < j < |calls| && Rebinds(calls[j].request, account) :: AnswerAt(env, calls, j).Err?
  }

  lemma {:induction false} StillBound(env: Env, calls: seq<Call>, i: nat)
    requires i < |calls| && (calls[i].request.Bind? || calls[i].request.Unbind?) && AnswerAt(env, calls, i).Ok?
    requires LeftAlone(env, calls, i, calls[i].request.account)
    ensures LastBound(env, calls, calls[i].request.account)
         == if calls[i].request.Bind? then calls[i].request.proof.key else None
    decreases |calls|
  {
    if i < |calls| - 1 {
      var front := Prior(calls);
      forall j | 0 <= j < |front| ensures AnswerAt(env, front, j) == AnswerAt(env, calls, j) {
        assert front[..j] == calls[..j];
      }
      StillBound(env, front, i);
    }
  }

  lemma AccountStays(env: Env, calls: seq<Call>, i: nat)
    requires i < |calls| && (calls[i].request.Bind? || calls[i].request.Unbind?) && AnswerAt(env, calls, i).Ok?
    ensures var a := calls[i].request.account;
            && a in Run(env, calls[..i]).accounts && Run(env, calls[..i]).accounts[a].handle.Some?
            && a in Run(env, calls).accounts
            && Run(env, calls).accounts[a].handle == Run(env, calls[..i]).accounts[a].handle
  {
    HandlesAreForLife(env, calls, i);
  }

  lemma HandleIsItsName(env: Env, calls: seq<Call>, id: string)
    requires id in Run(env, calls).accounts && Run(env, calls).accounts[id].handle.Some?
    ensures var h := Run(env, calls).accounts[id].handle.value; IsHandle(h) && Lower(h) == h
  {
    RunKeepsAccounts(env, calls);
  }

  /** Until it is bound or unbound again, the account's name resolves to the key of its accepted bind. */
  lemma BindResolves(env: Env, calls: seq<Call>, i: nat)
    requires i < |calls| && calls[i].request.Bind? && AnswerAt(env, calls, i).Ok?
    requires LeftAlone(env, calls, i, calls[i].request.account)
    ensures var r := calls[i].request;
            var a := Run(env, calls[..i]).accounts;
            && r.account in a && a[r.account].handle.Some? && r.proof.key.Some?
            && Nip05(Run(env, calls), a[r.account].handle.value) == Ok(r.proof.key.value)
  {
    var r := calls[i].request;
    BindEffect(env, Run(env, calls[..i]), r.account, r.device, r.proof, calls[i].now);
    AccountStays(env, calls, i);
    StillBound(env, calls, i);
    AccountIs(env, calls, r.account);
    HandleIsItsName(env, calls, r.account);
    Nip05Iff(env, calls, Run(env, calls).accounts[r.account].handle.value, r.proof.key.value);
  }

  /** And after an accepted unbind it resolves to nothing. */
  lemma UnbindResolves(env: Env, calls: seq<Call>, i: nat)
    requires i < |calls| && calls[i].request.Unbind? && AnswerAt(env, calls, i).Ok?
    requires LeftAlone(env, calls, i, calls[i].request.account)
    ensures var r := calls[i].request;
            var a := Run(env, calls[..i]).accounts;
            && r.account in a && a[r.account].handle.Some?
            && Nip05(Run(env, calls), a[r.account].handle.value) == Err(NotFound)
  {
    var r := calls[i].request;
    AccountStays(env, calls, i);
    StillBound(env, calls, i);
    AccountIs(env, calls, r.account);
    HandleIsItsName(env, calls, r.account);
    RunKeepsAccounts(env, calls);
    UnboundHandle(Run(env, calls), r.account);
  }

  lemma UnboundHandle(s: State, id: string)
    requires AccountsInv(s.accounts) && id in s.accounts && s.accounts[id].handle.Some? && s.accounts[id].key.None?
    requires Lower(s.accounts[id].handle.value) == s.accounts[id].handle.value
    ensures Nip05(s, s.accounts[id].handle.value) == Err(NotFound)
  {
    var h := s.accounts[id].handle.value;
    assert IsHandle(h) && HandleUsed(s.accounts, h);
    assert forall i | 0 <= i < |h| :: HandleChar(h[i]);
  }

  // What is accepted.

  /** The proof is whole, fresh and signed by device and key for this account and handle. */
  predicate BindProven(env: Env, s: State, r: Request, now: nat)
    requires r.Bind?
  {
    var p := r.proof;
    && r.account in s.accounts && s.accounts[r.account].handle.Some?
    && p.key.Some? && p.nonce.Some? && p.deviceSignature.Some? && p.nostrSignature.Some?
    && p.timestamp <= now + 300 && now <= p.timestamp + 300
    && var t := env.bindTranscript(r.account, s.accounts[r.account].handle.value, p.key.value, p.nonce.value, p.timestamp);
    && env.deviceSigned(r.device, t, p.deviceSignature.value) && env.nostrSigned(p.key.value, t, p.nostrSignature.value)
  }

  /** The same for an unbind, which the device alone signs, for the key bound at the time. */
  predicate UnbindProven(env: Env, s: State, r: Request, now: nat)
    requires r.Unbind?
  {
    var p := r.proof;
    && r.account in s.accounts && s.accounts[r.account].handle.Some? && s.accounts[r.account].key.Some?
    && p.nonce.Some? && p.deviceSignature.Some?
    && p.timestamp <= now + 300 && now <= p.timestamp + 300
    && var a := s.accounts[r.account];
    && env.deviceSigned(r.device, env.unbindTranscript(r.account, a.handle.value, a.key.value, p.nonce.value, p.timestamp),
                        p.deviceSignature.value)
  }

  /** At any point of any run a bind is accepted exactly if it is proven, its nonce is not in use and the key is free. */
  lemma BindAcceptedIff(env: Env, calls: seq<Call>, r: Request, now: nat)
    requires Ordered(calls) && Run(env, calls).clock <= now && r.Bind?
    ensures var s := Run(env, calls);
            Serve(env, s, r, now).0.Ok? <==>
              && BindProven(env, s, r, now) && !InUse(s.log, r.proof.nonce.value, now)
              && forall id | id in s.accounts && id != r.account :: s.accounts[id].key != r.proof.key
  {
    var s := Run(env, calls);
    if r.proof.nonce.Some? { RefusedIff(env, calls, r.proof.nonce.value, r.proof.timestamp, now); }
  }

  lemma UnbindAcceptedIff(env: Env, calls: seq<Call>, r: Request, now: nat)
    requires Ordered(calls) && Run(env, calls).clock <= now && r.Unbind?
    ensures var s := Run(env, calls);
            Serve(env, s, r, now).0.Ok? <==> UnbindProven(env, s, r, now) && !InUse(s.log, r.proof.nonce.value, now)
  {
    if r.proof.nonce.Some? { RefusedIff(env, calls, r.proof.nonce.value, r.proof.timestamp, now); }
  }

  /** Which error a bind gets, where it depends on the server's state. */
  lemma BindRefusedAs(env: Env, calls: seq<Call>, r: Request, now: nat)
    requires Ordered(calls) && Run(env, calls).clock <= now && r.Bind?
    ensures var s := Run(env, calls);
            var answer := Serve(env, s, r, now).0;
            && (answer == Err(NotFound) <==> r.account !in s.accounts)
            && (answer == Err(InvalidHandle) <==> r.account in s.accounts && s.accounts[r.account].handle.None?)
            && (answer == Err(ReplayedProof) <==> BindProven(env, s, r, now) && InUse(s.log, r.proof.nonce.value, now))
            && (answer == Err(NostrKeyTaken) <==>
                  && BindProven(env, s, r, now) && !InUse(s.log, r.proof.nonce.value, now)
                  && exists id | id in s.accounts :: id != r.account && s.accounts[id].key == r.proof.key)
            && (answer.Ok? ==> answer == Ok(r.proof.key))
  {
    var s := Run(env, calls);
    if r.proof.nonce.Some? { RefusedIff(env, calls, r.proof.nonce.value, r.proof.timestamp, now); }
  }

  /** The request proves itself, whether or not the key turns out to be taken. */
  predicate Proven(env: Env, s: State, r: Request, now: nat) {
    (r.Bind? && BindProven(env, s, r, now)) || (r.Unbind? && UnbindProven(env, s, r, now))
  }

  /** The nonces spent, in order: one for each proven request whose nonce was not in use. */
  function Spent(env: Env, calls: seq<Call>): seq<Accepted>
    decreases |calls|
  {
    if calls == [] then []
    else
      var s, r, now := Run(env, Prior(calls)), Final(calls).request, Final(calls).now;
      if Proven(env, s, r, now) && !InUse(Spent(env, Prior(calls)), r.proof.nonce.value, now)
      then Spent(env, Prior(calls)) + [Accepted(r.proof.nonce.value, r.proof.timestamp, now)]
      else Spent(env, Prior(calls))
  }

  lemma SpendStep(env: Env, calls: seq<Call>, r: Request, now: nat)
    requires Ordered(calls) && Run(env, calls).clock <= now
    ensures var s := Run(env, calls);
            Serve(env, s, r, now).1.log
              == if Proven(env, s, r, now) && !InUse(s.log, r.proof.nonce.value, now)
                 then s.log + [Accepted(r.proof.nonce.value, r.proof.timestamp, now)] else s.log
  {
    if (r.Bind? || r.Unbind?) && r.proof.nonce.Some? {
      RefusedIff(env, calls, r.proof.nonce.value, r.proof.timestamp, now);
    }
  }

  /** In every run the log of nonces is that. */
  lemma {:induction false} LogIsSpent(env: Env, calls: seq<Call>)
    requires Ordered(calls)
    ensures Run(env, calls).log == Spent(env, calls)
    decreases |calls|
  {
    if calls != [] {
      ClockOfPrefix(env, calls, |calls| - 1);
      LogIsSpent(env, Prior(calls));
      LastCall(env, calls);
      SpendStep(env, Prior(calls), Final(calls).request, Final(calls).now);
    }
  }

  // Claims.

  predicate Letter(c: char) { 'a' <= c <= 'z' }

  /** A handle as users write it: three to thirty-two letters, digits or underscores, a letter first, perhaps after an `@`. */
  predicate Spells(text: string, h: string) {
    && (text == h || text == "@" + h)
    && 3 <= |h| <= 32 && Letter(h[0])
    && forall i | 0 <= i < |h| :: Letter(h[i]) || '0' <= h[i] <= '9' || h[i] == '_'
  }

  lemma ParsesIff(text: string, h: string)
    ensures ParseHandle(text) == Some(h) <==> Spells(text, h)
  {
    var at := text != "" && text[0] == '@';
    if at { assert text == "@" + text[1..]; }
    if Spells(text, h) && text == "@" + h { assert text[1..] == h; }
  }

  /** At any point of any run a claim is accepted exactly if it spells a handle nobody claimed, for an account without one. */
  lemma ClaimAcceptedIff(env: Env, calls: seq<Call>, r: Request, now: nat, h: string)
    requires r.Claim?
    ensures var s := Run(env, calls);
            Serve(env, s, r, now).0.Ok? && ParseHandle(r.handle) == Some(h) <==>
              && Spells(r.handle, h) && r.account in s.accounts && LastClaimed(env, calls, r.account).None?
              && forall id | id in s.accounts :: LastClaimed(env, calls, id) != Some(h)
  {
    var s := Run(env, calls);
    ParsesIff(r.handle, h);
    forall id | id in s.accounts ensures s.accounts[id].handle == LastClaimed(env, calls, id) { AccountIs(env, calls, id); }
  }

  /** In every run a bound key is there because of a proof, signed by a device and the key, for that account. */
  lemma {:induction false} BoundIsProven(env: Env, calls: seq<Call>, id: string) returns (i: nat)
    requires id in Run(env, calls).accounts && Run(env, calls).accounts[id].key.Some?
    ensures i < |calls| && calls[i].request.Bind? && calls[i].request.account == id
    ensures calls[i].request.proof.key == Run(env, calls).accounts[id].key
    ensures BindProven(env, Run(env, calls[..i]), calls[i].request, calls[i].now)
    decreases |calls|
  {
    LastCall(env, calls);
    var s, last := Run(env, Prior(calls)), Final(calls);
    if id !in s.accounts {
      NewAccount(env, s, last.request, last.now, id);
      assert false;
    } else {
      OneRequest(env, s, last.request, last.now, id);
      if Rebinds(last.request, id) && Serve(env, s, last.request, last.now).0.Ok? {
        i := |calls| - 1;
      } else {
        i := BoundIsProven(env, Prior(calls), id);
        assert Prior(calls)[..i] == calls[..i];
      }
    }
  }

  // Devices.

  /** In every run each device has the account it was first registered with. */
  lemma {:induction false} DeviceIs(env: Env, calls: seq<Call>, device: Bytes, id: string)
    ensures (device in Run(env, calls).devices && Run(env, calls).devices[device] == id) <==> RegisteredAs(env, calls, device, id)
    decreases |calls|
  {
    if calls != [] {
      LastCall(env, calls);
      DeviceIs(env, Prior(calls), device, id);
      RegisteredMore(env, calls, device, id);
      DeviceStep(env, Run(env, Prior(calls)), Final(calls).request, Final(calls).now, device);
    }
  }

  lemma RegisteredMore(env: Env, calls: seq<Call>, device: Bytes, id: string)
    requires calls != []
    ensures RegisteredAs(env, calls, device, id) <==>
            RegisteredAs(env, Prior(calls), device, id) || RegistersAt(env, calls, |calls| - 1, device, id)
  {
    forall i | 0 <= i < |calls| - 1
      ensures RegistersAt(env, calls, i, device, id) <==> RegistersAt(env, Prior(calls), i, device, id)
    {
      assert Prior(calls)[..i] == calls[..i];
    }
  }

  lemma DeviceStep(env: Env, s: State, r: Request, now: nat, device: Bytes)
    ensures var (outcome, after) := Serve(env, s, r, now);
            if r.Register? && r.device == device && outcome.Ok? && device !in s.devices
            then device in after.devices && after.devices[device] == r.id
            else (device in after.devices <==> device in s.devices)
                 && (device in s.devices ==> after.devices[device] == s.devices[device])
  {
    match r
    case Register(d, account, nameOk) => RegisterEffect(s, d, account, nameOk);
    case Claim(account, text) => ClaimEffect(s, account, text);
    case Bind(account, d, p) => BindEffect(env, s, account, d, p, now);
    case Unbind(account, d, p) => UnbindEffect(env, s, account, d, p, now);
  }
}

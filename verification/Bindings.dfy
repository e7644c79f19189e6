/**
The handle server's accounts: claimed handles, bound Nostr keys, and the nonces of
the proofs that bound them. Signature checks and transcripts are functions handed in;
each request carries the clock reading it was served with.
*/
module Bindings {
  import opened Common

  const SKEW := 300

  datatype Account = Account(handle: Option<string>, key: Option<Bytes>)

  /** A proof whose nonce was recorded: what it said and when it was accepted. */
  datatype Accepted = Accepted(nonce: Bytes, timestamp: nat, at: nat)

  datatype State = State(
    accounts: map<string, Account>,
    devices: map<Bytes, string>,
    nonces: map<Bytes, nat>,
    log: seq<Accepted>,
    clock: nat)

  const EMPTY := State(map[], map[], map[], [], 0)

  /** A decoded proof; a field that did not decode is None. */
  datatype Proof = Proof(
    key: Option<Bytes>, nonce: Option<Bytes>, timestamp: nat, deviceSignature: Option<Bytes>, nostrSignature: Option<Bytes>)

  datatype Request =
    | Register(device: Bytes, id: string, nameOk: bool)
    | Claim(account: string, handle: string)
    | Bind(account: string, device: Bytes, proof: Proof)
    | Unbind(account: string, device: Bytes, proof: Proof)

  datatype Error =
    | NotFound
    | InvalidHandle
    | InvalidName
    | InvalidRequest
    | InvalidSignature
    | HandleAlreadySet
    | HandleTaken
    | NostrKeyTaken
    | ReplayedProof
    | Internal

  datatype Env = Env(
    bindTranscript: (string, string, Bytes, Bytes, nat) -> Bytes,
    unbindTranscript: (string, string, Bytes, Bytes, nat) -> Bytes,
    deviceSigned: (Bytes, Bytes, Bytes) -> bool,
    nostrSigned: (Bytes, Bytes, Bytes) -> bool)

  type Outcome = Result<Option<Bytes>, Error>

  // Handles.

  predicate HandleChar(c: char) { 'a' <= c <= 'z' || '0' <= c <= '9' || c == '_' }

  predicate IsHandle(h: string) {
    3 <= |h| <= 32 && 'a' <= h[0] <= 'z' && forall i | 0 <= i < |h| :: HandleChar(h[i])
  }

  /** The canonical handle: without one leading `@`. */
  function ParseHandle(text: string): Option<string> {
    var canonical := if text != "" && text[0] == '@' then text[1..] else text;
    if IsHandle(canonical) then Some(canonical) else None
  }

  predicate HandleUsed(accounts: map<string, Account>, h: string) {
    exists id | id in accounts :: accounts[id].handle == Some(h)
  }

  predicate KeyUsedElsewhere(accounts: map<string, Account>, account: string, key: Bytes) {
    exists id | id in accounts :: id != account && accounts[id].key == Some(key)
  }

  // Proof nonces.

  function Pruned(nonces: map<Bytes, nat>, now: nat): map<Bytes, nat> {
    map n | n in nonces && nonces[n] + SKEW >= now :: nonces[n]
  }

  predicate Fresh(timestamp: nat, now: nat) { timestamp <= now + SKEW && now <= timestamp + SKEW }

  /** Prune, then record; the pruning stays even when the nonce is a repeat. */
  function Remember(s: State, nonce: Bytes, timestamp: nat, now: nat): (Result<(), Error>, State) {
    var kept := Pruned(s.nonces, now);
    if nonce in kept then (Err(ReplayedProof), s.(nonces := kept))
    else (Ok(()), s.(nonces := kept[nonce := now], log := s.log + [Accepted(nonce, timestamp, now)]))
  }

  // Requests.

  function DoRegister(s: State, device: Bytes, id: string, nameOk: bool): (Outcome, State) {
    if device in s.devices then (Ok(None), s)
    else if !nameOk then (Err(InvalidName), s)
    else if id in s.accounts then (Err(Internal), s)
    else (Ok(None), s.(accounts := s.accounts[id := Account(None, None)], devices := s.devices[device := id]))
  }

  function DoClaim(s: State, account: string, text: string): (Outcome, State) {
    match ParseHandle(text)
    case None => (Err(InvalidHandle), s)
    case Some(h) =>
      if account !in s.accounts then (Err(NotFound), s)
      else if s.accounts[account].handle.Some? then (Err(HandleAlreadySet), s)
      else if HandleUsed(s.accounts, h) then (Err(HandleTaken), s)
      else (Ok(None), s.(accounts := s.accounts[account := s.accounts[account].(handle := Some(h))]))
  }

  /** The checks on a bind proof, in order. */
  function CheckBind(env: Env, s: State, account: string, device: Bytes, p: Proof, now: nat): Option<Error> {
    if account !in s.accounts then Some(NotFound)
    else if s.accounts[account].handle.None? then Some(InvalidHandle)
    else if p.key.None? || p.nonce.None? || p.deviceSignature.None? || p.nostrSignature.None? then Some(InvalidRequest)
    else if !Fresh(p.timestamp, now) then Some(InvalidRequest)
    else
      var t := env.bindTranscript(account, s.accounts[account].handle.value, p.key.value, p.nonce.value, p.timestamp);
      if !env.deviceSigned(device, t, p.deviceSignature.value) then Some(InvalidSignature)
      else if !env.nostrSigned(p.key.value, t, p.nostrSignature.value) then Some(InvalidSignature)
      else None
  }

  function SetKey(s: State, account: string, key: Option<Bytes>): State
    requires account in s.accounts
  {
    s.(accounts := s.accounts[account := s.accounts[account].(key := key)])
  }

  function DoBind(env: Env, s: State, account: string, device: Bytes, p: Proof, now: nat): (Outcome, State) {
    if CheckBind(env, s, account, device, p, now).Some? then (Err(CheckBind(env, s, account, device, p, now).value), s)
    else match Remember(s, p.nonce.value, p.timestamp, now)
      case (Err(e), after) => (Err(e), after)
      case (Ok(_), after) =>
        if KeyUsedElsewhere(s.accounts, account, p.key.value) then (Err(NostrKeyTaken), after)
        else (Ok(p.key), SetKey(after, account, p.key))
  }

  function CheckUnbind(env: Env, s: State, account: string, device: Bytes, p: Proof, now: nat): Option<Error> {
    if account !in s.accounts then Some(NotFound)
    else if s.accounts[account].handle.None? then Some(InvalidHandle)
    else if s.accounts[account].key.None? then Some(NotFound)
    else if p.nonce.None? || p.deviceSignature.None? then Some(InvalidRequest)
    else if !Fresh(p.timestamp, now) then Some(InvalidRequest)
    else
      var a := s.accounts[account];
      var t := env.unbindTranscript(account, a.handle.value, a.key.value, p.nonce.value, p.timestamp);
      if !env.deviceSigned(device, t, p.deviceSignature.value) then Some(InvalidSignature) else None
  }

  function DoUnbind(env: Env, s: State, account: string, device: Bytes, p: Proof, now: nat): (Outcome, State) {
    if CheckUnbind(env, s, account, device, p, now).Some? then
      (Err(CheckUnbind(env, s, account, device, p, now).value), s)
    else match Remember(s, p.nonce.value, p.timestamp, now)
      case (Err(e), after) => (Err(e), after)
      case (Ok(_), after) => (Ok(None), SetKey(after, account, None))
  }

  function Serve(env: Env, s: State, r: Request, now: nat): (Outcome, State) {
    var (outcome, after) :=
      match r
      case Register(device, id, nameOk) => DoRegister(s, device, id, nameOk)
      case Claim(account, handle) => DoClaim(s, account, handle)
      case Bind(account, device, proof) => DoBind(env, s, account, device, proof, now)
      case Unbind(account, device, proof) => DoUnbind(env, s, account, device, proof, now);
    (outcome, after.(clock := now))
  }

  datatype Call = Call(request: Request, now: nat)

  function Run(env: Env, calls: seq<Call>): State {
    if calls == [] then EMPTY
    else Serve(env, Run(env, calls[..|calls| - 1]), calls[|calls| - 1].request, calls[|calls| - 1].now).1
  }

  // What every request keeps.

  predicate AccountsInv(accounts: map<string, Account>) {
    && (forall a, b | a in accounts && b in accounts && accounts[a].handle.Some? && accounts[a].handle == accounts[b].handle :: a == b)
    && (forall a, b | a in accounts && b in accounts && accounts[a].key.Some? && accounts[a].key == accounts[b].key :: a == b)
    && (forall a | a in accounts && accounts[a].key.Some? :: accounts[a].handle.Some?)
    && (forall a | a in accounts && accounts[a].handle.Some? :: IsHandle(accounts[a].handle.value))
  }

  /** A handle, once set, is never changed, and no account disappears. */
  predicate Extends(before: map<string, Account>, after: map<string, Account>) {
    forall a | a in before ::
      a in after && (before[a].handle.Some? ==> after[a].handle == before[a].handle)
  }

  lemma ClaimKeeps(accounts: map<string, Account>, account: string, h: string)
    requires AccountsInv(accounts) && account in accounts && accounts[account].handle.None?
    requires IsHandle(h) && !HandleUsed(accounts, h)
    ensures var after := accounts[account := accounts[account].(handle := Some(h))];
            AccountsInv(after) && Extends(accounts, after)
  {
  }

  lemma SetKeyKeeps(accounts: map<string, Account>, account: string, key: Option<Bytes>)
    requires AccountsInv(accounts) && account in accounts && accounts[account].handle.Some?
    requires key.Some? ==> !KeyUsedElsewhere(accounts, account, key.value)
    ensures var after := accounts[account := accounts[account].(key := key)];
            AccountsInv(after) && Extends(accounts, after)
  {
  }

  predicate Kept(before: map<string, Account>, after: map<string, Account>) {
    AccountsInv(after) && Extends(before, after)
  }

  lemma RegisterKeeps(s: State, device: Bytes, id: string, nameOk: bool)
    requires AccountsInv(s.accounts)
    ensures Kept(s.accounts, DoRegister(s, device, id, nameOk).1.accounts)
  {
  }

  lemma DoClaimKeeps(s: State, account: string, text: string)
    requires AccountsInv(s.accounts)
    ensures Kept(s.accounts, DoClaim(s, account, text).1.accounts)
  {
    if DoClaim(s, account, text).0.Ok? { ClaimKeeps(s.accounts, account, ParseHandle(text).value); }
  }

  lemma BindKeeps(env: Env, s: State, account: string, device: Bytes, p: Proof, now: nat)
    requires AccountsInv(s.accounts)
    ensures Kept(s.accounts, DoBind(env, s, account, device, p, now).1.accounts)
  {
    if DoBind(env, s, account, device, p, now).0.Ok? { SetKeyKeeps(s.accounts, account, p.key); }
  }

  lemma UnbindKeeps(env: Env, s: State, account: string, device: Bytes, p: Proof, now: nat)
    requires AccountsInv(s.accounts)
    ensures Kept(s.accounts, DoUnbind(env, s, account, device, p, now).1.accounts)
  {
    if DoUnbind(env, s, account, device, p, now).0.Ok? { SetKeyKeeps(s.accounts, account, None); }
  }

  lemma ServeKeepsAccounts(env: Env, s: State, r: Request, now: nat)
    requires AccountsInv(s.accounts)
    ensures Kept(s.accounts, Serve(env, s, r, now).1.accounts)
  {
    match r
    case Register(device, id, nameOk) => RegisterKeeps(s, device, id, nameOk);
    case Claim(account, text) => DoClaimKeeps(s, account, text);
    case Bind(account, device, p) => BindKeeps(env, s, account, device, p, now);
    case Unbind(account, device, p) => UnbindKeeps(env, s, account, device, p, now);
  }

  /** Handles and keys are pairwise distinct and every bound account has a handle, over every run. */
  lemma {:induction false} RunKeepsAccounts(env: Env, calls: seq<Call>)
    ensures AccountsInv(Run(env, calls).accounts)
    decreases |calls|
  {
    if calls != [] {
      RunKeepsAccounts(env, calls[..|calls| - 1]);
      var last := calls[|calls| - 1];
      ServeKeepsAccounts(env, Run(env, calls[..|calls| - 1]), last.request, last.now);
    }
  }

  /** Handles are for life: later calls keep every account and every handle already set. */
  lemma {:induction false} HandlesAreForLife(env: Env, calls: seq<Call>, n: nat)
    requires n <= |calls|
    ensures Extends(Run(env, calls[..n]).accounts, Run(env, calls).accounts)
    decreases |calls|
  {
    if n == |calls| {
      assert calls[..n] == calls;
    } else {
      var front, last := calls[..|calls| - 1], calls[|calls| - 1];
      assert front[..n] == calls[..n];
      HandlesAreForLife(env, front, n);
      RunKeepsAccounts(env, front);
      ServeKeepsAccounts(env, Run(env, front), last.request, last.now);
    }
  }

  // NIP-05.

  function LowerChar(c: char): char { if 'A' <= c <= 'Z' then (c as int + 32) as char else c }

  function Lower(s: string): string { seq(|s|, i requires 0 <= i < |s| => LowerChar(s[i])) }

  predicate NameChar(c: char) { HandleChar(c) || c == '-' || c == '.' }

  /** The account with this handle, if any. */
  ghost function Holder(accounts: map<string, Account>, h: string): Option<Account> {
    if HandleUsed(accounts, h) then
      var id :| id in accounts && accounts[id].handle == Some(h);
      Some(accounts[id])
    else None
  }

  ghost function Nip05(s: State, name: string): Result<Bytes, Error> {
    if name == "" then Err(InvalidRequest)
    else if |name| > 64 || exists i | 0 <= i < |name| :: !NameChar(Lower(name)[i]) then Err(InvalidName)
    else match Holder(s.accounts, Lower(name))
      case Some(Account(_, Some(key))) => Ok(key)
      case _ => Err(NotFound)
  }

  /** A name resolves to a key exactly when the account with that handle is bound to it. */
  lemma Nip05Iff(env: Env, calls: seq<Call>, name: string, key: Bytes)
    ensures var s := Run(env, calls);
            Nip05(s, name) == Ok(key) <==>
            exists id | id in s.accounts :: s.accounts[id] == Account(Some(Lower(name)), Some(key))
  {
    RunKeepsAccounts(env, calls);
    var s := Run(env, calls);
    if id :| id in s.accounts && s.accounts[id] == Account(Some(Lower(name)), Some(key)) {
      assert IsHandle(Lower(name));
      assert forall i | 0 <= i < |name| :: HandleChar(Lower(name)[i]);
    }
  }

  // Replay.

  /** Every accepted proof's nonce is still recorded, or the clock is past its window. */
  predicate NonceAt(s: State, i: nat)
    requires i < |s.log|
  {
    var e := s.log[i];
    && e.at <= s.clock && Fresh(e.timestamp, e.at)
    && ((e.nonce in s.nonces && s.nonces[e.nonce] >= e.at) || e.at + SKEW < s.clock)
  }

  predicate Apart(log: seq<Accepted>, i: nat, j: nat)
    requires i < |log| && j < |log|
  {
    log[i].nonce == log[j].nonce ==> log[i].at + SKEW < log[j].at
  }

  predicate NonceInv(s: State) {
    && (forall i | 0 <= i < |s.log| :: NonceAt(s, i))
    && (forall i, j | 0 <= i < j < |s.log| :: Apart(s.log, i, j))
  }

  lemma RememberKeeps(s: State, nonce: Bytes, timestamp: nat, now: nat)
    requires NonceInv(s) && s.clock <= now && Fresh(timestamp, now)
    ensures NonceInv(Remember(s, nonce, timestamp, now).1.(clock := now))
  {
    var v := Remember(s, nonce, timestamp, now).1.(clock := now);
    forall i | 0 <= i < |v.log| ensures NonceAt(v, i) {
      if i < |s.log| { assert NonceAt(s, i); }
    }
    forall i, j | 0 <= i < j < |v.log| ensures Apart(v.log, i, j) {
      assert NonceAt(s, i);
      if j < |s.log| { assert Apart(s.log, i, j); }
    }
  }

  lemma ServeKeepsNonces(env: Env, s: State, r: Request, now: nat)
    requires NonceInv(s) && s.clock <= now
    ensures NonceInv(Serve(env, s, r, now).1)
  {
    var v := Serve(env, s, r, now).1;
    if (r.Bind? && CheckBind(env, s, r.account, r.device, r.proof, now).None?)
       || (r.Unbind? && CheckUnbind(env, s, r.account, r.device, r.proof, now).None?) {
      RememberKeeps(s, r.proof.nonce.value, r.proof.timestamp, now);
      var u := Remember(s, r.proof.nonce.value, r.proof.timestamp, now).1.(clock := now);
      assert v.log == u.log && v.nonces == u.nonces && v.clock == u.clock;
      forall i | 0 <= i < |v.log| ensures NonceAt(v, i) { assert NonceAt(u, i); }
      forall i, j | 0 <= i < j < |v.log| ensures Apart(v.log, i, j) { assert Apart(u.log, i, j); }
    } else {
      assert v.log == s.log && v.nonces == s.nonces;
      forall i | 0 <= i < |v.log| ensures NonceAt(v, i) { assert NonceAt(s, i); }
      forall i, j | 0 <= i < j < |v.log| ensures Apart(v.log, i, j) { assert Apart(s.log, i, j); }
    }
  }

  predicate Ordered(calls: seq<Call>) { forall i, j | 0 <= i < j < |calls| :: calls[i].now <= calls[j].now }

  lemma {:induction false} RunKeepsNonces(env: Env, calls: seq<Call>)
    requires Ordered(calls)
    ensures NonceInv(Run(env, calls)) && (calls != [] ==> Run(env, calls).clock == calls[|calls| - 1].now)
    ensures calls == [] ==> Run(env, calls).clock == 0
    decreases |calls|
  {
    if calls != [] {
      var front, last := calls[..|calls| - 1], calls[|calls| - 1];
      RunKeepsNonces(env, front);
      ServeKeepsNonces(env, Run(env, front), last.request, last.now);
    }
  }

  /**
  Under a clock that never goes back, a proof whose timestamp is not ahead of the clock when it
  is first accepted is never accepted again; nor is any other proof with its nonce for as long
  as the nonce is kept.
  */
  lemma NoReplay(env: Env, calls: seq<Call>, i: nat, j: nat)
    requires Ordered(calls) && i < j < |Run(env, calls).log|
    ensures var log := Run(env, calls).log;
            log[i].nonce == log[j].nonce ==>
              && log[i].at + SKEW < log[j].at
              && (log[i].timestamp == log[j].timestamp ==> log[i].timestamp > log[i].at)
  {
    RunKeepsNonces(env, calls);
    var s := Run(env, calls);
    assert Apart(s.log, i, j) && NonceAt(s, i) && NonceAt(s, j);
  }

  /** When the same proof, sent again later, passes the checks. */
  predicate AcceptedAgain(env: Env, s: State, account: string, device: Bytes, p: Proof, later: nat) {
    DoBind(env, s, account, device, p, later).0.Ok?
  }

  /**
  Exactly the proofs stamped ahead of the clock can be replayed: the nonce is forgotten by the
  time it was seen, the window runs from the stamp.
  */
  lemma ReplayPossibleIff(env: Env, s: State, account: string, device: Bytes, p: Proof, now: nat)
    requires NonceInv(s) && s.clock <= now && DoBind(env, s, account, device, p, now).0.Ok?
    ensures var after := DoBind(env, s, account, device, p, now).1;
            && ((exists later | now <= later :: AcceptedAgain(env, after, account, device, p, later)) <==> p.timestamp > now)
            && forall later | now <= later ::
                 AcceptedAgain(env, after, account, device, p, later) <==> now + SKEW < later <= p.timestamp + SKEW
  {
    var after := DoBind(env, s, account, device, p, now).1;
    assert after.nonces[p.nonce.value] == now && !KeyUsedElsewhere(after.accounts, account, p.key.value);
    if p.timestamp > now {
      assert AcceptedAgain(env, after, account, device, p, now + SKEW + 1);
    }
  }

  // Replays anywhere in a run.

  predicate UseAt(log: seq<Accepted>, nonce: Bytes, at: nat, m: nat) {
    m < |log| && log[m].nonce == nonce && log[m].at == at
  }

  /** A recorded nonce carries the time of one of its uses. */
  ghost predicate Dated(s: State) {
    forall n | n in s.nonces :: exists m: nat :: UseAt(s.log, n, s.nonces[n], m)
  }

  lemma LongerLog(before: State, after: State)
    requires Dated(before) && before.log <= after.log
    requires forall n | n in after.nonces ::
      (n in before.nonces && after.nonces[n] == before.nonces[n]) || exists m: nat :: UseAt(after.log, n, after.nonces[n], m)
    ensures Dated(after)
  {
    forall n | n in after.nonces ensures exists m: nat :: UseAt(after.log, n, after.nonces[n], m) {
      if n in before.nonces && after.nonces[n] == before.nonces[n] {
        var m: nat :| UseAt(before.log, n, before.nonces[n], m);
        assert UseAt(after.log, n, after.nonces[n], m);
      }
    }
  }

  lemma RememberDates(s: State, nonce: Bytes, timestamp: nat, now: nat)
    requires Dated(s)
    ensures Dated(Remember(s, nonce, timestamp, now).1)
  {
    var (r, after) := Remember(s, nonce, timestamp, now);
    if r.Ok? { assert UseAt(after.log, nonce, now, |s.log|); }
    LongerLog(s, after);
  }

  lemma SameDates(s: State, after: State)
    requires Dated(s) && after.nonces == s.nonces && after.log == s.log
    ensures Dated(after)
  {
    LongerLog(s, after);
  }

  lemma ServeDates(env: Env, s: State, r: Request, now: nat)
    requires Dated(s)
    ensures Dated(Serve(env, s, r, now).1)
  {
    var after := Serve(env, s, r, now).1;
    if (r.Bind? && CheckBind(env, s, r.account, r.device, r.proof, now).None?)
       || (r.Unbind? && CheckUnbind(env, s, r.account, r.device, r.proof, now).None?) {
      RememberDates(s, r.proof.nonce.value, r.proof.timestamp, now);
      SameDates(Remember(s, r.proof.nonce.value, r.proof.timestamp, now).1, after);
    } else {
      SameDates(s, after);
    }
  }

  lemma {:induction false} RunDates(env: Env, calls: seq<Call>)
    ensures Dated(Run(env, calls))
    decreases |calls|
  {
    if calls != [] {
      RunDates(env, calls[..|calls| - 1]);
      ServeDates(env, Run(env, calls[..|calls| - 1]), calls[|calls| - 1].request, calls[|calls| - 1].now);
    }
  }

  /** The nonce was used within the window that ends now. */
  predicate InUse(log: seq<Accepted>, nonce: Bytes, now: nat) {
    exists m | 0 <= m < |log| :: log[m].nonce == nonce && now <= log[m].at + SKEW
  }

  /** In every run a nonce is refused exactly while one of its recorded uses is in the window. */
  lemma RefusedIff(env: Env, calls: seq<Call>, nonce: Bytes, timestamp: nat, now: nat)
    requires Ordered(calls) && Run(env, calls).clock <= now
    ensures Remember(Run(env, calls), nonce, timestamp, now).0.Err? <==> InUse(Run(env, calls).log, nonce, now)
  {
    var s := Run(env, calls);
    RunKeepsNonces(env, calls);
    RunDates(env, calls);
    if nonce in Pruned(s.nonces, now) {
      var m: nat :| UseAt(s.log, nonce, s.nonces[nonce], m);
    }
    if m :| 0 <= m < |s.log| && s.log[m].nonce == nonce && now <= s.log[m].at + SKEW {
      assert NonceAt(s, m);
    }
  }

  lemma ClockOfPrefix(env: Env, calls: seq<Call>, j: nat)
    requires Ordered(calls) && j < |calls|
    ensures Ordered(calls[..j]) && Run(env, calls[..j]).clock <= calls[j].now
  {
    assert forall i | 0 <= i < j :: calls[..j][i] == calls[i];
    RunKeepsNonces(env, calls[..j]);
  }

  /** The account of an accepted proof keeps its handle, so its transcript stays the same. */
  lemma HandleStays(env: Env, calls: seq<Call>, i: nat, j: nat, account: string)
    requires i <= j <= |calls| && account in Run(env, calls[..i]).accounts
    requires Run(env, calls[..i]).accounts[account].handle.Some?
    ensures account in Run(env, calls[..j]).accounts
    ensures Run(env, calls[..j]).accounts[account].handle == Run(env, calls[..i]).accounts[account].handle
  {
    assert calls[..j][..i] == calls[..i];
    HandlesAreForLife(env, calls[..j], i);
  }

  /**
  A bind request that was accepted, sent again at any later point of any run, is accepted again
  if and only if its stamp still allows it, no use of its nonce is in the window, and no other
  account has taken the key.
  */
  lemma BindReplayIff(env: Env, calls: seq<Call>, i: nat, j: nat)
    requires Ordered(calls) && i < j < |calls| && calls[i].request.Bind? && calls[j].request == calls[i].request
    requires Serve(env, Run(env, calls[..i]), calls[i].request, calls[i].now).0.Ok?
    ensures var s, r, later := Run(env, calls[..j]), calls[i].request, calls[j].now;
            && r.proof.nonce.Some? && r.proof.key.Some?
            && (Serve(env, s, r, later).0.Ok? <==>
                  && later <= r.proof.timestamp + SKEW && !InUse(s.log, r.proof.nonce.value, later)
                  && !KeyUsedElsewhere(s.accounts, r.account, r.proof.key.value))
  {
    var s, r, later := Run(env, calls[..j]), calls[i].request, calls[j].now;
    HandleStays(env, calls, i, j, r.account);
    ClockOfPrefix(env, calls, j);
    RefusedIff(env, calls[..j], r.proof.nonce.value, r.proof.timestamp, later);
    assert calls[i].now <= later;
  }

  /** And an unbind request: here the key bound at the time must be one its signature covers. */
  lemma UnbindReplayIff(env: Env, calls: seq<Call>, i: nat, j: nat)
    requires Ordered(calls) && i < j < |calls| && calls[i].request.Unbind? && calls[j].request == calls[i].request
    requires Serve(env, Run(env, calls[..i]), calls[i].request, calls[i].now).0.Ok?
    ensures var s, r, later := Run(env, calls[..j]), calls[i].request, calls[j].now;
            && r.proof.nonce.Some? && r.account in s.accounts
            && (Serve(env, s, r, later).0.Ok? <==>
                  && later <= r.proof.timestamp + SKEW && !InUse(s.log, r.proof.nonce.value, later)
                  && Covers(env, Run(env, calls[..i]).accounts[r.account], r, s.accounts[r.account].key))
    ensures Covers(env, Run(env, calls[..i]).accounts[calls[i].request.account], calls[i].request,
                   Run(env, calls[..i]).accounts[calls[i].request.account].key)
  {
    var s, r, later := Run(env, calls[..j]), calls[i].request, calls[j].now;
    HandleStays(env, calls, i, j, r.account);
    ClockOfPrefix(env, calls, j);
    RefusedIff(env, calls[..j], r.proof.nonce.value, r.proof.timestamp, later);
    assert calls[i].now <= later;
  }

  /** The unbind proof is signed for this key, under the handle the account has for life. */
  predicate Covers(env: Env, account: Account, r: Request, key: Option<Bytes>)
    requires r.Unbind?
  {
    && key.Some? && account.handle.Some? && r.proof.nonce.Some? && r.proof.deviceSignature.Some?
    && env.deviceSigned(r.device,
         env.unbindTranscript(r.account, account.handle.value, key.value, r.proof.nonce.value, r.proof.timestamp),
         r.proof.deviceSignature.value)
  }

  /** Either replay needs a stamp ahead of the clock at the first acceptance. */
  lemma ReplayNeedsFutureStamp(env: Env, calls: seq<Call>, i: nat, j: nat)
    requires Ordered(calls) && i < j < |calls| && (calls[i].request.Bind? || calls[i].request.Unbind?)
    requires calls[j].request == calls[i].request
    requires Serve(env, Run(env, calls[..i]), calls[i].request, calls[i].now).0.Ok?
    requires Serve(env, Run(env, calls[..j]), calls[j].request, calls[j].now).0.Ok?
    ensures calls[i].now + SKEW < calls[j].now <= calls[i].request.proof.timestamp + SKEW
  {
    if calls[i].request.Bind? { BindReplayIff(env, calls, i, j); } else { UnbindReplayIff(env, calls, i, j); }
    var s := Run(env, calls[..j]);
    var m := UseRecorded(env, calls, i, j);
    assert s.log[m].at == calls[i].now;
  }

  lemma {:induction false} LogGrows(env: Env, calls: seq<Call>, n: nat)
    requires n <= |calls|
    ensures Run(env, calls[..n]).log <= Run(env, calls).log
    decreases |calls|
  {
    if n == |calls| {
      assert calls[..n] == calls;
    } else {
      var front := calls[..|calls| - 1];
      assert front[..n] == calls[..n];
      LogGrows(env, front, n);
      ServeLogs(env, Run(env, front), calls[|calls| - 1].request, calls[|calls| - 1].now);
    }
  }

  lemma ServeLogs(env: Env, s: State, r: Request, now: nat)
    ensures s.log <= Serve(env, s, r, now).1.log
  {
  }

  lemma UseRecorded(env: Env, calls: seq<Call>, i: nat, j: nat) returns (m: nat)
    requires i < j <= |calls| && (calls[i].request.Bind? || calls[i].request.Unbind?)
    requires Serve(env, Run(env, calls[..i]), calls[i].request, calls[i].now).0.Ok?
    ensures calls[i].request.proof.nonce.Some?
    ensures UseAt(Run(env, calls[..j]).log, calls[i].request.proof.nonce.value, calls[i].now, m)
  {
    m := |Run(env, calls[..i]).log|;
    assert calls[..i + 1][..i] == calls[..i] && calls[..j][..i + 1] == calls[..i + 1];
    LogGrows(env, calls[..j], i + 1);
  }

  // A replay.

  const OPEN_ENV: Env := Env((_, _, _, _, _) => [], (_, _, _, _, _) => [], (_, _, _) => true, (_, _, _) => true)
  const AHEAD: Proof := Proof(Some([1]), Some([2]), SKEW, Some([]), Some([]))
  const TWICE: seq<Call> :=
    [Call(Register([], "a", true), 0), Call(Claim("a", "bob"), 0),
     Call(Bind("a", [], AHEAD), 0), Call(Bind("a", [], AHEAD), SKEW + 1)]

  lemma NextState(env: Env, calls: seq<Call>, n: nat)
    requires n < |calls|
    ensures Run(env, calls[..n + 1]) == Serve(env, Run(env, calls[..n]), calls[n].request, calls[n].now).1
  {
    assert calls[..n + 1][..n] == calls[..n];
  }

  lemma BobClaims()
    ensures Run(OPEN_ENV, TWICE[..2]) == State(map["a" := Account(Some("bob"), None)], map[[] := "a"], map[], [], 0)
  {
    assert TWICE[..0] == [];
    NextState(OPEN_ENV, TWICE, 0);
    NextState(OPEN_ENV, TWICE, 1);
    assert IsHandle("bob");
  }

  /** Stamped as far ahead as allowed, a proof is accepted at once and again after the window. */
  lemma AcceptedTwice()
    ensures Ordered(TWICE)
    ensures Serve(OPEN_ENV, Run(OPEN_ENV, TWICE[..2]), TWICE[2].request, TWICE[2].now).0.Ok?
    ensures Serve(OPEN_ENV, Run(OPEN_ENV, TWICE[..3]), TWICE[3].request, TWICE[3].now).0.Ok?
  {
    BobClaims();
    NextState(OPEN_ENV, TWICE, 2);
  }

  // The service object.

  class Service {
    var accounts: map<string, Account>
    var devices: map<Bytes, string>
    var nonces: map<Bytes, nat>
    ghost var log: seq<Accepted>
    ghost var clock: nat

    ghost function View(): State
      reads this
    {
      State(accounts, devices, nonces, log, clock)
    }

    constructor ()
      ensures View() == EMPTY
    {
      accounts, devices, nonces, log, clock := map[], map[], map[], [], 0;
    }

    method RegisterDevice(device: Bytes, id: string, nameOk: bool) returns (r: Outcome)
      modifies this`accounts, this`devices
      ensures (r, View()) == DoRegister(old(View()), device, id, nameOk)
    {
      if device in devices { return Ok(None); }
      if !nameOk { return Err(InvalidName); }
      if id in accounts { return Err(Internal); }
      accounts := accounts[id := Account(None, None)];
      devices := devices[device := id];
      return Ok(None);
    }

    method ClaimHandle(account: string, text: string) returns (r: Outcome)
      modifies this`accounts
      ensures (r, View()) == DoClaim(old(View()), account, text)
    {
      var h := ParseHandle(text);
      if h.None? { return Err(InvalidHandle); }
      if account !in accounts { return Err(NotFound); }
      if accounts[account].handle.Some? { return Err(HandleAlreadySet); }
      if HandleUsed(accounts, h.value) { return Err(HandleTaken); }
      accounts := accounts[account := accounts[account].(handle := h)];
      return Ok(None);
    }

    /** Delete what is out of the window, then insert under the primary key. */
    method RememberNonce(nonce: Bytes, timestamp: nat, now: nat) returns (r: Result<(), Error>)
      modifies this`nonces, this`log
      ensures (r, View()) == Remember(old(View()), nonce, timestamp, now)
    {
      nonces := map n | n in nonces && nonces[n] + SKEW >= now :: nonces[n];
      if nonce in nonces { return Err(ReplayedProof); }
      nonces := nonces[nonce := now];
      log := log + [Accepted(nonce, timestamp, now)];
      return Ok(());
    }

    method BindNostr(env: Env, account: string, device: Bytes, p: Proof, now: nat) returns (r: Outcome)
      modifies this`accounts, this`nonces, this`log
      ensures (r, View()) == DoBind(env, old(View()), account, device, p, now)
    {
      if account !in accounts { return Err(NotFound); }
      var handle := accounts[account].handle;
      if handle.None? { return Err(InvalidHandle); }
      if p.key.None? || p.nonce.None? || p.deviceSignature.None? || p.nostrSignature.None? { return Err(InvalidRequest); }
      if !Fresh(p.timestamp, now) { return Err(InvalidRequest); }
      var t := env.bindTranscript(account, handle.value, p.key.value, p.nonce.value, p.timestamp);
      if !env.deviceSigned(device, t, p.deviceSignature.value) { return Err(InvalidSignature); }
      if !env.nostrSigned(p.key.value, t, p.nostrSignature.value) { return Err(InvalidSignature); }
      var remembered := RememberNonce(p.nonce.value, p.timestamp, now);
      if remembered.Err? { return Err(remembered.error); }
      if KeyUsedElsewhere(accounts, account, p.key.value) { return Err(NostrKeyTaken); }
      accounts := accounts[account := accounts[account].(key := p.key)];
      return Ok(p.key);
    }

    method UnbindNostr(env: Env, account: string, device: Bytes, p: Proof, now: nat) returns (r: Outcome)
      modifies this`accounts, this`nonces, this`log
      ensures (r, View()) == DoUnbind(env, old(View()), account, device, p, now)
    {
      if account !in accounts { return Err(NotFound); }
      var a := accounts[account];
      if a.handle.None? { return Err(InvalidHandle); }
      if a.key.None? { return Err(NotFound); }
      if p.nonce.None? || p.deviceSignature.None? { return Err(InvalidRequest); }
      if !Fresh(p.timestamp, now) { return Err(InvalidRequest); }
      var t := env.unbindTranscript(account, a.handle.value, a.key.value, p.nonce.value, p.timestamp);
      if !env.deviceSigned(device, t, p.deviceSignature.value) { return Err(InvalidSignature); }
      var remembered := RememberNonce(p.nonce.value, p.timestamp, now);
      if remembered.Err? { return Err(remembered.error); }
      accounts := accounts[account := a.(key := None)];
      return Ok(None);
    }
  }
}

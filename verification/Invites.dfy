/** Client-admin invites (app/invites.py): tokens salted with the password hash,
    and a compare-and-swap on that hash. Any number of accept and resend requests
    interleave, each as the statements it sends to the database.

    Two facts about libraries are taken as given: only issued tokens carry a valid
    signature, and a freshly generated hash ends in sixteen characters no earlier
    hash ended in. */
module Invites {
  import opened Outcomes

  type UserId = nat
  type Client = nat
  type Hash = string

  const INVITE_MAX_AGE := 72 * 3600

  datatype User = User(hash: Hash, invitedAt: Option<int>, activatedAt: Option<int>)

  /** What the signature covers: user id, hash fragment, time of signing. */
  datatype Token = Token(user: UserId, tail: string, issuedAt: int)

  type Users = map<UserId, User>

  /** password_hash[-16:] */
  function Tail(h: Hash): string { if |h| <= 16 then h else h[|h| - 16..] }

  /** The fragment is the last sixteen characters of the hash, or all of a shorter one. */
  predicate EndsWith(h: Hash, tail: string) {
    |tail| == (if |h| < 16 then |h| else 16) && forall i :: 0 <= i < |tail| ==> tail[i] == h[|h| - |tail| + i]
  }

  predicate InvitePending(user: User) { user.invitedAt.Some? && user.activatedAt.None? }

  function MakeToken(u: UserId, h: Hash, now: int): Token { Token(u, Tail(h), now) }

  /** `load_user_from_token` on a token whose signature is good. */
  predicate Opens(users: Users, t: Token, now: int) {
    && now - t.issuedAt <= INVITE_MAX_AGE
    && t.user in users && Tail(users[t.user].hash) == t.tail
  }

  /** The conditional UPDATE of `accept`: matches only while the hash is the old one. */
  function Swap(users: Users, u: UserId, oldHash: Hash, newHash: Hash, now: int): Users {
    if u in users && users[u].hash == oldHash
    then users[u := users[u].(hash := newHash, activatedAt := Some(now))]
    else users
  }

  /** The unconditional write a resend commits. */
  function Rotate(users: Users, u: UserId, newHash: Hash, now: int): Users {
    if u in users then users[u := users[u].(hash := newHash, invitedAt := Some(now))] else users
  }

  /** The user table and the statements sent to it. */
  class UserTable {
    var users: Users

    constructor ()
      ensures users == map[]
    {
      users := map[];
    }

    /** A link opens for 72 hours, and while its fragment ends the user's password hash. */
    method LoadFromToken(t: Token, now: int) returns (user: Option<User>)
      ensures user.Some? <==> Opens(users, t, now)
      ensures now > t.issuedAt + 259200 ==> user.None?
      ensures user.Some? ==> t.user in users && EndsWith(users[t.user].hash, t.tail)
      ensures t.user in users && t == MakeToken(t.user, users[t.user].hash, t.issuedAt) ==>
                (user.Some? <==> now <= t.issuedAt + 259200)
      ensures user.Some? ==> t.user in users && user.value == users[t.user]
    {
      if now - t.issuedAt > INVITE_MAX_AGE {
        return None;
      }
      if t.user !in users || Tail(users[t.user].hash) != t.tail {
        return None;
      }
      return Some(users[t.user]);
    }

    /** Returns the row count: of two submissions for one hash exactly one gets 1. */
    method Claim(u: UserId, oldHash: Hash, newHash: Hash, now: int) returns (claimed: nat)
      modifies this
      ensures users == Swap(old(users), u, oldHash, newHash, now)
      ensures claimed == if u in old(users) && old(users)[u].hash == oldHash then 1 else 0
      ensures claimed == 0 ==> users == old(users)
      ensures claimed == 1 ==> users[u].hash == newHash && users[u].activatedAt == Some(now)
      ensures forall v :: v in users && (v != u || claimed == 0) ==> v in old(users) && users[v] == old(users)[v]
    {
      claimed := 0;
      if u in users && users[u].hash == oldHash {
        users := users[u := users[u].(hash := newHash, activatedAt := Some(now))];
        claimed := 1;
      }
    }

    /** What a resend commits. The link just mailed opens, links to the hash before it do
        not, and a form loaded against that hash can no longer be submitted; whether the user
        had accepted, and every other user, stay as they were. */
    method CommitRotation(u: UserId, newHash: Hash, now: int)
      modifies this
      ensures users == Rotate(old(users), u, newHash, now)
      ensures users.Keys == old(users).Keys && forall v :: v in users && v != u ==> users[v] == old(users)[v]
      ensures u in users ==> users[u] == User(newHash, Some(now), old(users)[u].activatedAt)
      ensures u in users ==> Opens(users, MakeToken(u, newHash, now), now)
      ensures u in users && Tail(old(users)[u].hash) != Tail(newHash) ==>
                forall issued, at :: !Opens(users, MakeToken(u, old(users)[u].hash, issued), at)
    {
      if u in users {
        users := users[u := users[u].(hash := newHash, invitedAt := Some(now))];
      }
    }
  }

  /** Rotating a user's hash to one with another fragment: only the new link opens, a form
      loaded against the old hash submits nothing, and nobody else is touched. */
  lemma RotationCancelsLinks(users: Users, u: UserId, newHash: Hash, now: int, t: Token, at: int, chosen: Hash)
    requires u in users && Tail(users[u].hash) != Tail(newHash)
    ensures var after := Rotate(users, u, newHash, now);
      && Opens(after, MakeToken(u, newHash, now), now)
      && (t.user == u && t.tail != Tail(newHash) ==> !Opens(after, t, at))
      && (t.user != u ==> (Opens(after, t, at) <==> Opens(users, t, at)))
      && Swap(after, u, users[u].hash, chosen, at) == after
      && after[u] == User(newHash, Some(now), users[u].activatedAt)
  {
  }

  // ------------------------------------------------------------------- the machine

  datatype Pc =
    | Loaded(token: Token, oldHash: Hash)               // accept: form shown valid, UPDATE not sent
    | Resending(user: UserId, hash: Hash, at: int)      // resend: link made and mailed, not committed

  datatype Event =
    | Accepted(token: Token)
    | Refused(token: Token)
    | Resent(user: UserId)

  /** `hashes` are all hashes ever generated, `retired` those that were a user's
      hash and no longer are; `log` is what has happened, in order. */
  datatype State = State(
    users: Users, issued: set<Token>, pcs: map<Client, Pc>,
    hashes: set<Hash>, retired: set<Hash>, log: seq<Event>)

  const INITIAL := State(map[], {}, map[], {}, {}, [])

  datatype Action =
    | Invite(u: UserId, hash: Hash, now: int)
    | Open(client: Client, token: Token, now: int)
    | Submit(client: Client, hash: Hash, now: int)
    | StartResend(client: Client, u: UserId, hash: Hash, now: int)
    | CommitResend(client: Client)
    | GiveUp(client: Client)                            // bad password, or rolled back

  /** Generated now, unlike every hash before it in its last sixteen characters. */
  ghost predicate Fresh(st: State, h: Hash) { forall g :: g in st.hashes ==> Tail(g) != Tail(h) }

  ghost predicate Enabled(st: State, a: Action) {
    match a
    case Invite(u, hash, _) => u !in st.users && Fresh(st, hash)
    case Open(c, token, _) => c !in st.pcs && token in st.issued
    case Submit(c, hash, _) => c in st.pcs && st.pcs[c].Loaded? && Fresh(st, hash)
    case StartResend(c, u, hash, _) =>
      c !in st.pcs && u in st.users && InvitePending(st.users[u]) && Fresh(st, hash)
    case CommitResend(c) => c in st.pcs && st.pcs[c].Resending?
    case GiveUp(c) => c in st.pcs
  }

  function Step(st: State, a: Action): State {
    match a
    case Invite(u, hash, now) =>
      st.(users := st.users[u := User(hash, Some(now), None)],
          issued := st.issued + {MakeToken(u, hash, now)}, hashes := st.hashes + {hash})
    case Open(c, token, now) =>
      if Opens(st.users, token, now) then st.(pcs := st.pcs[c := Loaded(token, st.users[token.user].hash)])
      else st.(log := st.log + [Refused(token)])
    case Submit(c, hash, now) =>
      if c !in st.pcs || !st.pcs[c].Loaded? then st
      else
        var Loaded(token, oldHash) := st.pcs[c];
        var users := Swap(st.users, token.user, oldHash, hash, now);
        var won := token.user in st.users && st.users[token.user].hash == oldHash;
        st.(users := users, pcs := st.pcs - {c}, hashes := st.hashes + {hash},
            retired := if won then st.retired + {oldHash} else st.retired,
            log := st.log + [if won then Accepted(token) else Refused(token)])
    case StartResend(c, u, hash, now) =>
      st.(pcs := st.pcs[c := Resending(u, hash, now)],
          issued := st.issued + {MakeToken(u, hash, now)}, hashes := st.hashes + {hash})
    case CommitResend(c) =>
      if c !in st.pcs || !st.pcs[c].Resending? then st
      else
        var Resending(u, hash, now) := st.pcs[c];
        st.(users := Rotate(st.users, u, hash, now), pcs := st.pcs - {c},
            retired := if u in st.users then st.retired + {st.users[u].hash} else st.retired,
            log := st.log + [Resent(u)])
    case GiveUp(c) => st.(pcs := st.pcs - {c})
  }

  /** Every interleaving: any enabled steps in any order. */
  ghost predicate Possible(st: State, actions: seq<Action>)
    decreases actions
  {
    actions == [] || (Enabled(st, actions[0]) && Possible(Step(st, actions[0]), actions[1..]))
  }

  function Exec(st: State, actions: seq<Action>): State
    decreases actions
  {
    if actions == [] then st else Exec(Step(st, actions[0]), actions[1..])
  }

  // -------------------------------------------------------------------- invariant

  ghost predicate TailsTellApart(st: State) {
    forall g, h | g in st.hashes && h in st.hashes :: Tail(g) == Tail(h) ==> g == h
  }

  /** Users hold generated hashes that were never retired, no two the same one. */
  ghost predicate CurrentHashes(st: State) {
    && (forall u :: u in st.users ==> st.users[u].hash in st.hashes && st.users[u].hash !in st.retired)
    && (forall u, v | u in st.users && v in st.users :: st.users[u].hash == st.users[v].hash ==> u == v)
    && st.retired <= st.hashes
  }

  /** A resend in flight holds a generated hash not yet anyone's. */
  ghost predicate PendingUnused(st: State) {
    forall c | c in st.pcs && st.pcs[c].Resending? ::
      && st.pcs[c].user in st.users && st.pcs[c].hash in st.hashes && st.pcs[c].hash !in st.retired
      && forall u :: u in st.users ==> st.users[u].hash != st.pcs[c].hash
  }

  /** No two resends in flight hold the same hash. */
  ghost predicate PendingApart(st: State) {
    forall c, d | c in st.pcs && d in st.pcs && st.pcs[c].Resending? && st.pcs[d].Resending? ::
      st.pcs[c].hash == st.pcs[d].hash ==> c == d
  }

  ghost predicate PendingHashes(st: State) { PendingUnused(st) && PendingApart(st) }

  /** A loaded form remembers a hash with its token's fragment. */
  ghost predicate LoadedForms(st: State) {
    forall c | c in st.pcs && st.pcs[c].Loaded? ::
      st.pcs[c].oldHash in st.hashes && Tail(st.pcs[c].oldHash) == st.pcs[c].token.tail
  }

  ghost predicate Retired(st: State, tail: string) { exists h :: h in st.retired && Tail(h) == tail }

  ghost predicate AcceptedRetired(st: State) {
    forall e :: e in st.log && e.Accepted? ==> Retired(st, e.token.tail)
  }

  ghost predicate AcceptedOnce(st: State) {
    forall i, j :: 0 <= i < j < |st.log| && st.log[i].Accepted? && st.log[j].Accepted? ==>
      st.log[i].token != st.log[j].token
  }

  ghost predicate Inv(st: State) {
    && TailsTellApart(st) && CurrentHashes(st) && PendingHashes(st) && LoadedForms(st)
    && AcceptedRetired(st) && AcceptedOnce(st)
  }

  ghost predicate HashInv(st: State) {
    TailsTellApart(st) && CurrentHashes(st) && PendingHashes(st) && LoadedForms(st)
  }

  /** A fresh hash is new, and keeps all fragments distinct. */
  lemma FreshIsNew(st: State, h: Hash)
    requires TailsTellApart(st) && Fresh(st, h)
    ensures h !in st.hashes
    ensures TailsTellApart(st.(hashes := st.hashes + {h}))
  {
  }

  lemma StepKeepsTails(st: State, a: Action)
    requires TailsTellApart(st) && Enabled(st, a)
    ensures TailsTellApart(Step(st, a))
    ensures a.Invite? || a.Submit? || a.StartResend? ==> a.hash !in st.hashes
  {
    if a.Invite? || a.Submit? || a.StartResend? {
      FreshIsNew(st, a.hash);
    }
  }

  /** An action that generates a hash generates a new one. */
  ghost predicate NewHash(st: State, a: Action) {
    a.Invite? || a.Submit? || a.StartResend? ==> a.hash !in st.hashes
  }

  lemma StepKeepsCurrent(st: State, a: Action)
    requires CurrentHashes(st) && PendingHashes(st) && Enabled(st, a) && NewHash(st, a)
    ensures CurrentHashes(Step(st, a))
  {
    hide Fresh, Tail, InvitePending;
  }

  lemma StepKeepsUnused(st: State, a: Action)
    requires CurrentHashes(st) && PendingHashes(st) && Enabled(st, a) && NewHash(st, a)
    ensures PendingUnused(Step(st, a))
  {
    hide Fresh, Tail, InvitePending;
  }

  lemma StepKeepsApart(st: State, a: Action)
    requires PendingHashes(st) && Enabled(st, a) && NewHash(st, a)
    ensures PendingApart(Step(st, a))
  {
    hide Fresh, Tail, InvitePending;
  }

  lemma StepKeepsPending(st: State, a: Action)
    requires CurrentHashes(st) && PendingHashes(st) && Enabled(st, a) && NewHash(st, a)
    ensures PendingHashes(Step(st, a))
  {
    hide CurrentHashes, Step, Enabled, NewHash, PendingUnused, PendingApart;
    StepKeepsUnused(st, a);
    StepKeepsApart(st, a);
  }

  lemma StepKeepsForms(st: State, a: Action)
    requires CurrentHashes(st) && LoadedForms(st) && Enabled(st, a)
    ensures LoadedForms(Step(st, a))
  {
    hide Fresh, Tail, InvitePending;
  }

  lemma StepKeepsHashes(st: State, a: Action)
    requires HashInv(st) && Enabled(st, a)
    ensures HashInv(Step(st, a))
  {
    hide Step, Enabled, TailsTellApart, CurrentHashes, PendingHashes, LoadedForms;
    StepKeepsTails(st, a);
    StepKeepsCurrent(st, a);
    StepKeepsPending(st, a);
    StepKeepsForms(st, a);
  }

  /** An accept only goes through on a fragment not yet retired, and retires it. */
  lemma AcceptRetires(st: State, a: Action)
    requires Inv(st) && Enabled(st, a)
    ensures st.retired <= Step(st, a).retired
    ensures Step(st, a).log == st.log
         || (exists e :: Step(st, a).log == st.log + [e]
               && (e.Accepted? ==> !Retired(st, e.token.tail) && Retired(Step(st, a), e.token.tail)))
  {
  }

  lemma StepKeepsInv(st: State, a: Action)
    requires Inv(st) && Enabled(st, a)
    ensures Inv(Step(st, a))
  {
    hide Step, Enabled, HashInv, TailsTellApart, CurrentHashes, PendingHashes, LoadedForms;
    assert HashInv(st) by { InvSplit(st); }
    StepKeepsHashes(st, a);
    AcceptRetires(st, a);
    InvSplit(Step(st, a));
  }

  lemma InvSplit(st: State)
    ensures Inv(st) <==> HashInv(st) && AcceptedRetired(st) && AcceptedOnce(st)
  {
  }

  lemma {:induction false} AlwaysInv(st: State, actions: seq<Action>)
    requires Inv(st) && Possible(st, actions)
    ensures Inv(Exec(st, actions))
    decreases actions
  {
    if actions != [] {
      StepKeepsInv(st, actions[0]);
      AlwaysInv(Step(st, actions[0]), actions[1..]);
    }
  }

  // ---------------------------------------------------------------- what is promised

  /** Under every interleaving each token sets a password at most once. */
  lemma TokenAcceptedOnce(actions: seq<Action>, i: nat, j: nat)
    requires Possible(INITIAL, actions)
    requires var log := Exec(INITIAL, actions).log; i < j < |log| && log[i].Accepted? && log[j].Accepted?
    ensures Exec(INITIAL, actions).log[i].token != Exec(INITIAL, actions).log[j].token
  {
    AlwaysInv(INITIAL, actions);
  }

  /** The token names the user's present hash. */
  ghost predicate NamesCurrent(st: State, t: Token) {
    t.user in st.users && Tail(st.users[t.user].hash) == t.tail
  }

  /** The token names a hash that a resend in flight will commit. */
  ghost predicate NamesPending(st: State, t: Token) {
    exists c :: c in st.pcs && st.pcs[c].Resending? && st.pcs[c].user == t.user && Tail(st.pcs[c].hash) == t.tail
  }

  ghost predicate MayStillWork(st: State, t: Token) { NamesCurrent(st, t) || NamesPending(st, t) }

  /** Its fragment is that of some hash generated already. */
  ghost predicate KnownTail(st: State, t: Token) { exists h :: h in st.hashes && Tail(h) == t.tail }

  /** A hash the action generates is not the one the token names. */
  ghost predicate OtherTail(t: Token, a: Action) {
    a.Invite? || a.Submit? || a.StartResend? ==> Tail(a.hash) != t.tail
  }

  lemma StaysOffCurrent(st: State, t: Token, a: Action)
    requires Enabled(st, a) && OtherTail(t, a) && !NamesCurrent(st, t) && !NamesPending(st, t)
    ensures !NamesCurrent(Step(st, a), t)
  {
    hide Tail, Fresh, InvitePending;
  }

  lemma StaysOffPending(st: State, t: Token, a: Action)
    requires Enabled(st, a) && OtherTail(t, a) && !NamesPending(st, t)
    ensures !NamesPending(Step(st, a), t)
  {
    hide Tail, Fresh, InvitePending;
  }

  lemma StaysRefused(st: State, t: Token, a: Action)
    requires LoadedForms(st) && Enabled(st, a) && !NamesCurrent(st, t)
    ensures Accepted(t) in Step(st, a).log ==> Accepted(t) in st.log
  {
    hide Tail, Fresh, InvitePending;
  }

  lemma DeadStays(st: State, t: Token, a: Action)
    requires LoadedForms(st) && Enabled(st, a) && KnownTail(st, t) && !MayStillWork(st, t)
    ensures KnownTail(Step(st, a), t) && !MayStillWork(Step(st, a), t)
    ensures Accepted(t) in Step(st, a).log ==> Accepted(t) in st.log
  {
    var h :| h in st.hashes && Tail(h) == t.tail;
    assert h in Step(st, a).hashes;
    assert OtherTail(t, a);
    hide Step, Enabled, Tail, LoadedForms, NamesCurrent, NamesPending;
    StaysOffCurrent(st, t, a);
    StaysOffPending(st, t, a);
    StaysRefused(st, t, a);
  }

  /** A token outside MayStillWork never works again: it does not open and sets no
      password in any continuation. */
  lemma {:induction false} DeadForever(st: State, t: Token, actions: seq<Action>, now: int)
    requires Inv(st) && Possible(st, actions) && KnownTail(st, t) && !MayStillWork(st, t)
    ensures !Opens(Exec(st, actions).users, t, now)
    ensures Accepted(t) in Exec(st, actions).log ==> Accepted(t) in st.log
    decreases actions
  {
    if actions != [] {
      StepKeepsInv(st, actions[0]);
      DeadStays(st, t, actions[0]);
      DeadForever(Step(st, actions[0]), t, actions[1..], now);
    }
  }

  /** Opening a link past its age loads no form: it is refused and nothing else happens. */
  lemma ExpiredIsRefused(st: State, c: Client, t: Token, now: int)
    requires Enabled(st, Open(c, t, now)) && now > t.issuedAt + 259200
    ensures Step(st, Open(c, t, now)) == st.(log := st.log + [Refused(t)])
  {
  }

  /** In any run a link that is only ever opened past its age sets no password. */
  lemma {:induction false} ExpiredIsNeverAccepted(st: State, t: Token, actions: seq<Action>)
    requires Possible(st, actions)
    requires Accepted(t) !in st.log && forall c :: c in st.pcs && st.pcs[c].Loaded? ==> st.pcs[c].token != t
    requires forall i :: 0 <= i < |actions| && actions[i].Open? && actions[i].token == t ==>
               actions[i].now > t.issuedAt + 259200
    ensures Accepted(t) !in Exec(st, actions).log
    decreases actions
  {
    if actions != [] {
      NoFormStays(st, t, actions[0]);
      assert forall i :: 0 <= i < |actions[1..]| ==> actions[1..][i] == actions[i + 1];
      ExpiredIsNeverAccepted(Step(st, actions[0]), t, actions[1..]);
    }
  }

  lemma NoFormStays(st: State, t: Token, a: Action)
    requires Enabled(st, a) && (a.Open? && a.token == t ==> a.now > t.issuedAt + 259200)
    requires Accepted(t) !in st.log && forall c :: c in st.pcs && st.pcs[c].Loaded? ==> st.pcs[c].token != t
    ensures Accepted(t) !in Step(st, a).log
    ensures forall c :: c in Step(st, a).pcs && Step(st, a).pcs[c].Loaded? ==> Step(st, a).pcs[c].token != t
  {
    hide Tail, Fresh, InvitePending;
  }

  /** Some way to go on lets the token open, before it is past its age. */
  ghost predicate CanOpen(st: State, t: Token) {
    exists actions :: Possible(st, actions) && Opens(Exec(st, actions).users, t, t.issuedAt)
  }

  /** A token still has a future exactly while it names the user's present hash or
      the hash of a resend in flight. */
  lemma CanOpenIffNamed(st: State, t: Token)
    requires Inv(st) && KnownTail(st, t)
    ensures CanOpen(st, t) <==> MayStillWork(st, t)
  {
    hide KnownTail, NamesCurrent, NamesPending, Opens, Possible, Exec;
    if NamesCurrent(st, t) {
      CurrentOpens(st, t);
    } else if NamesPending(st, t) {
      PendingOpens(st, t);
    } else {
      forall actions | Possible(st, actions) ensures !Opens(Exec(st, actions).users, t, t.issuedAt) {
        DeadForever(st, t, actions, t.issuedAt);
      }
    }
  }

  lemma CurrentOpens(st: State, t: Token)
    requires NamesCurrent(st, t)
    ensures CanOpen(st, t)
  {
    assert Possible(st, []) && Opens(Exec(st, []).users, t, t.issuedAt);
  }

  lemma OneStep(st: State, a: Action)
    requires Enabled(st, a)
    ensures Possible(st, [a]) && Exec(st, [a]) == Step(st, a)
  {
    hide Enabled, Step;
    assert [a][0] == a && [a][1..] == [];
    assert Possible(Step(st, a), []) && Exec(Step(st, a), []) == Step(st, a);
  }

  lemma PendingOpens(st: State, t: Token)
    requires PendingUnused(st) && NamesPending(st, t)
    ensures CanOpen(st, t)
  {
    hide Possible, Exec, Tail;
    var c :| c in st.pcs && st.pcs[c].Resending? && st.pcs[c].user == t.user && Tail(st.pcs[c].hash) == t.tail;
    OneStep(st, CommitResend(c));
    assert Opens(Exec(st, [CommitResend(c)]).users, t, t.issuedAt);
  }

  /** Committing an accept or a resend kills every token naming the hash it replaces. */
  lemma CommitKillsEarlierTokens(st: State, a: Action, t: Token)
    requires Inv(st) && Enabled(st, a) && (a.Submit? || a.CommitResend?)
    requires t.user in st.users && Tail(st.users[t.user].hash) == t.tail
    requires t.user in Step(st, a).users && Step(st, a).users[t.user].hash != st.users[t.user].hash
    ensures KnownTail(Step(st, a), t) && !MayStillWork(Step(st, a), t)
  {
    StepKeepsTails(st, a);
    assert st.users[t.user].hash in st.hashes;
  }

  // ------------------------------------------------------- when an accept is final

  ghost predicate ResendInFlight(st: State, u: UserId) {
    exists c :: c in st.pcs && st.pcs[c].Resending? && st.pcs[c].user == u
  }

  /** No issued token names the user's present hash. */
  ghost predicate NoTokenFor(st: State, u: UserId) {
    u in st.users && forall t :: t in st.issued && t.user == u ==> t.tail != Tail(st.users[u].hash)
  }

  /** A form loaded for u was loaded against a hash some issued token names. */
  ghost predicate FormsFromTokens(st: State) {
    forall c :: c in st.pcs && st.pcs[c].Loaded? ==> st.pcs[c].token in st.issued
  }

  /** u chose a password, no token names it, and no resend is in flight. */
  ghost predicate Settled(st: State, u: UserId) {
    u in st.users && st.users[u].activatedAt.Some? && NoTokenFor(st, u) && !ResendInFlight(st, u)
  }

  lemma SettledUserStays(st: State, u: UserId, a: Action)
    requires LoadedForms(st) && FormsFromTokens(st) && Settled(st, u) && Enabled(st, a)
    ensures u in Step(st, a).users && Step(st, a).users[u] == st.users[u]
  {
    hide Tail, Fresh;
  }

  lemma NoNewResend(st: State, u: UserId, a: Action)
    requires Settled(st, u) && Enabled(st, a)
    ensures !ResendInFlight(Step(st, a), u)
  {
    hide Tail, Fresh, NoTokenFor;
  }

  lemma SettledStep(st: State, u: UserId, a: Action)
    requires LoadedForms(st) && FormsFromTokens(st) && Settled(st, u) && Enabled(st, a)
    ensures Settled(Step(st, a), u) && Step(st, a).users[u].hash == st.users[u].hash
  {
    SettledUserStays(st, u, a);
    NoNewResend(st, u, a);
    assert forall t :: t in Step(st, a).issued && t !in st.issued ==> t.user != u;
    hide Tail, Fresh, Step, Enabled, LoadedForms, FormsFromTokens, ResendInFlight;
    assert forall t :: t in Step(st, a).issued && t.user == u ==> t in st.issued;
  }

  lemma FormsStep(st: State, a: Action)
    requires FormsFromTokens(st) && Enabled(st, a)
    ensures FormsFromTokens(Step(st, a))
  {
  }

  lemma {:induction false} SettledForever(st: State, u: UserId, actions: seq<Action>)
    requires Inv(st) && FormsFromTokens(st) && Settled(st, u) && Possible(st, actions)
    ensures u in Exec(st, actions).users && Exec(st, actions).users[u].hash == st.users[u].hash
    decreases actions
  {
    if actions != [] {
      StepKeepsInv(st, actions[0]);
      SettledStep(st, u, actions[0]);
      FormsStep(st, actions[0]);
      SettledForever(Step(st, actions[0]), u, actions[1..]);
    }
  }

  /** Every way to go on leaves u's password alone. */
  ghost predicate PasswordStays(st: State, u: UserId) {
    u in st.users && forall actions | Possible(st, actions) ::
      u in Exec(st, actions).users && Exec(st, actions).users[u].hash == st.users[u].hash
  }

  /** The submission that a step makes finds the hash its form was loaded against. */
  ghost predicate Wins(st: State, a: Action) {
    && a.Submit? && a.client in st.pcs && st.pcs[a.client].Loaded?
    && st.pcs[a.client].token.user in st.users
    && st.users[st.pcs[a.client].token.user].hash == st.pcs[a.client].oldHash
  }

  /** Every token names a hash generated earlier. */
  ghost predicate TailsFromHashes(st: State) { forall t :: t in st.issued ==> KnownTail(st, t) }

  lemma NewHashUnnamed(st: State, a: Action)
    requires TailsFromHashes(st) && Enabled(st, a) && Wins(st, a)
    ensures var u, t := st.pcs[a.client].token.user, Step(st, a);
      NoTokenFor(t, u) && t.users[u].activatedAt.Some?
  {
    forall k | k in st.issued ensures k.tail != Tail(a.hash) {
      var h :| h in st.hashes && Tail(h) == k.tail;
    }
  }

  /** A resend that read "pending" earlier overwrites whatever password is there now. */
  lemma ResendOverwrites(st: State, u: UserId)
    requires PendingHashes(st) && ResendInFlight(st, u)
    ensures !PasswordStays(st, u)
  {
    var c :| c in st.pcs && st.pcs[c].Resending? && st.pcs[c].user == u;
    hide PasswordStays, Tail;
    OverwrittenBy(st, u, c);
  }

  lemma SettledPasswordStays(st: State, u: UserId)
    requires Inv(st) && FormsFromTokens(st) && Settled(st, u)
    ensures PasswordStays(st, u)
  {
    hide Inv, FormsFromTokens, Possible, Exec;
    forall actions | Possible(st, actions)
      ensures u in Exec(st, actions).users && Exec(st, actions).users[u].hash == st.users[u].hash
    {
      SettledForever(st, u, actions);
    }
  }

  /** The moment an accept has gone through, the chosen password is safe from every
      continuation exactly when no resend for that user is in flight. */
  lemma AcceptIsFinalIffNoResend(st: State, a: Action)
    requires Inv(st) && FormsFromTokens(st) && TailsFromHashes(st) && Enabled(st, a) && Wins(st, a)
    ensures var u, t := st.pcs[a.client].token.user, Step(st, a);
      Accepted(st.pcs[a.client].token) in t.log && (PasswordStays(t, u) <==> !ResendInFlight(t, u))
  {
    var u, t := st.pcs[a.client].token.user, Step(st, a);
    assert t.log == st.log + [Accepted(st.pcs[a.client].token)];
    assert u in t.users;
    NewHashUnnamed(st, a);
    StepKeepsInv(st, a);
    FormsStep(st, a);
    assert PendingHashes(t);
    hide Inv, FormsFromTokens, TailsFromHashes, Step, Enabled, PendingHashes, PasswordStays, NoTokenFor;
    if ResendInFlight(t, u) {
      ResendOverwrites(t, u);
    } else {
      SettledPasswordStays(t, u);
    }
  }

  /** Both side conditions hold in every reachable state. */
  lemma {:induction false} SideConditionsHold(st: State, actions: seq<Action>)
    requires FormsFromTokens(st) && TailsFromHashes(st) && Possible(st, actions)
    ensures FormsFromTokens(Exec(st, actions)) && TailsFromHashes(Exec(st, actions))
    decreases actions
  {
    if actions != [] {
      var t := Step(st, actions[0]);
      FormsStep(st, actions[0]);
      forall k | k in t.issued ensures KnownTail(t, k) {
        if k in st.issued {
          var h :| h in st.hashes && Tail(h) == k.tail;
          assert h in t.hashes;
        } else {
          assert actions[0].hash in t.hashes;
        }
      }
      SideConditionsHold(t, actions[1..]);
    }
  }

  lemma ExecStep(st: State, a: Action, rest: seq<Action>)
    requires Enabled(st, a) && Possible(Step(st, a), rest)
    ensures Possible(st, [a] + rest) && Exec(st, [a] + rest) == Exec(Step(st, a), rest)
  {
    assert ([a] + rest)[0] == a && ([a] + rest)[1..] == rest;
  }

  /** An invite, a form opened, a resend begun and the form submitted: the accept has gone
      through, and the resend still to commit will overwrite the password chosen. */
  lemma OverwriteIsReachable(u: UserId, h0: Hash, h1: Hash, h2: Hash, now: int)
    requires Tail(h0) != Tail(h1) && Tail(h0) != Tail(h2) && Tail(h1) != Tail(h2)
    ensures var t := MakeToken(u, h0, now);
      var run := [Invite(u, h0, now), Open(0, t, now), StartResend(1, u, h1, now), Submit(0, h2, now)];
      Possible(INITIAL, run) && Accepted(t) in Exec(INITIAL, run).log && !PasswordStays(Exec(INITIAL, run), u)
  {
    hide Tail;
    var t := MakeToken(u, h0, now);
    var s1 := Step(INITIAL, Invite(u, h0, now));
    var s2 := Step(s1, Open(0, t, now));
    var s3 := Step(s2, StartResend(1, u, h1, now));
    var s4 := Step(s3, Submit(0, h2, now));
    assert s4.log == [Accepted(t)] && s4.pcs[1] == Resending(u, h1, now) && s4.users[u].hash == h2;
    assert h1 != h2;
    OverwriteRun(s1, s2, s3, s4, u, h0, h1, h2, now);
    hide Step;
    assert ResendInFlight(s4, u);
    OverwrittenBy(s4, u, 1);
  }

  lemma OverwriteRun(
      s1: State, s2: State, s3: State, s4: State, u: UserId, h0: Hash, h1: Hash, h2: Hash, now: int)
    requires Tail(h0) != Tail(h1) && Tail(h0) != Tail(h2) && Tail(h1) != Tail(h2)
    requires s1 == Step(INITIAL, Invite(u, h0, now)) && s2 == Step(s1, Open(0, MakeToken(u, h0, now), now))
    requires s3 == Step(s2, StartResend(1, u, h1, now)) && s4 == Step(s3, Submit(0, h2, now))
    ensures var run := [Invite(u, h0, now), Open(0, MakeToken(u, h0, now), now), StartResend(1, u, h1, now),
                        Submit(0, h2, now)];
      Possible(INITIAL, run) && Exec(INITIAL, run) == s4
  {
    hide Tail;
    var a, b, c, d := Invite(u, h0, now), Open(0, MakeToken(u, h0, now), now), StartResend(1, u, h1, now),
      Submit(0, h2, now);
    assert Enabled(INITIAL, a) && Enabled(s1, b) && Enabled(s2, c) && Enabled(s3, d);
    hide Step, Enabled;
    ExecStep(s3, d, []);
    ExecStep(s2, c, [d] + []);
    ExecStep(s1, b, [c] + ([d] + []));
    ExecStep(INITIAL, a, [b] + ([c] + ([d] + [])));
    assert [a] + ([b] + ([c] + ([d] + []))) == [a, b, c, d];
  }

  /** A resend whose hash is not the present one overwrites it when it commits. */
  lemma OverwrittenBy(st: State, u: UserId, c: Client)
    requires u in st.users && c in st.pcs && st.pcs[c].Resending? && st.pcs[c].user == u
    requires st.pcs[c].hash != st.users[u].hash
    ensures !PasswordStays(st, u)
  {
    var go := [CommitResend(c)];
    assert go[0] == CommitResend(c) && go[1..] == [];
    assert Possible(Step(st, go[0]), []) && Possible(st, go);
    assert Exec(st, go) == Exec(Step(st, go[0]), []) == Step(st, go[0]);
  }
}

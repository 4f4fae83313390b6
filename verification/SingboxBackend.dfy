/** Starting, stopping and restarting sing-box: the configuration is loaded from the file and
    the users of the store are put back into it. */
module SingboxBackend {
  import opened Model
  import opened Identifier
  import opened Storage
  import opened SingboxConfig

  /** A stored user with this id and name is on the inbound. */
  predicate Stored(users: map<Uid, User>, tag: Tag, uid: Uid, username: string) {
    uid in users && users[uid].username == username && OnInbound(users[uid], tag)
  }

  function OnTag(users: map<Uid, User>, tag: Tag): set<(Tag, Uid, string)> {
    set id | id in users && OnInbound(users[id], tag) :: (tag, id, users[id].username)
  }

  /** The stored users on the served inbounds, each with the tag of the inbound and as often as
      the tag is served. */
  function OnServed(users: map<Uid, User>, served: seq<Inbound>): multiset<(Tag, Uid, string)> {
    if served == [] then multiset{}
    else OnServed(users, served[..|served| - 1]) + multiset(OnTag(users, served[|served| - 1].tag))
  }

  /** The user has as many entries more in `cfg` than in `base` as `added` says. */
  predicate Gained(base: Cfg, cfg: Cfg, added: multiset<(Tag, Uid, string)>, tag: Tag, uid: Uid, username: string) {
    Copies(UsersOf(cfg, tag), UserIdentifier(uid, username))
    == Copies(UsersOf(base, tag), UserIdentifier(uid, username)) + added[(tag, uid, username)]
  }

  function Named(added: multiset<(Tag, Uid, string)>): set<string> {
    set it | it in added :: UserIdentifier(it.1, it.2)
  }

  /** `cfg` is `base` with entries appended, those in `added`, and their users counted. */
  ghost predicate Grown(base: Cfg, cfg: Cfg, added: multiset<(Tag, Uid, string)>) {
    && (forall tag :: HasTag(cfg, tag) <==> HasTag(base, tag))
    && (forall tag :: UsersOf(base, tag) <= UsersOf(cfg, tag))
    && Elements(cfg.counted) == Elements(base.counted) + Named(added)
    && (forall tag, uid: Uid, username :: Gained(base, cfg, added, tag, uid, username))
  }

  lemma GrowOne(base: Cfg, cfg: Cfg, added: multiset<(Tag, Uid, string)>, user: User, inbound: Inbound, creds: Credentials)
    requires Grown(base, cfg, added) && HasTag(cfg, inbound.tag)
    requires Append(cfg, user, inbound, creds).Some?
    ensures Grown(base, Append(cfg, user, inbound, creds).value, added + multiset{Entered(inbound.tag, user)})
  {
    hide Append, HasTag, UsersOf, UserIdentifier, Copies, BuildAccount;
    var op := Add(user, inbound, creds);
    var next := Append(cfg, user, inbound, creds).value;
    assert next == Apply(cfg, op);
    var added' := added + multiset{Entered(inbound.tag, user)};
    forall tag ensures (HasTag(next, tag) <==> HasTag(base, tag)) && UsersOf(base, tag) <= UsersOf(next, tag) {
      ApplyUsers(cfg, op, tag);
    }
    AppendNeedsAccount(cfg, user, inbound, creds);
    ApplyUsers(cfg, op, inbound.tag);
    CountedOne(cfg.counted, op.Identifier());
    NamedMore(added, inbound.tag, user);
    forall tag, uid: Uid, username ensures Gained(base, next, added', tag, uid, username) {
      assert Gained(base, cfg, added, tag, uid, username);
      ApplyUsers(cfg, op, tag);
      if tag == inbound.tag {
        AccountIsOwn(op, uid, username);
        CopiesMore(UsersOf(cfg, tag), BuildAccount(op.Identifier(), inbound.protocol, creds).value, UserIdentifier(uid, username));
      }
    }
  }

  lemma NamedMore(added: multiset<(Tag, Uid, string)>, tag: Tag, user: User)
    ensures Named(added + multiset{Entered(tag, user)}) == Named(added) + {UserIdentifier(user.id, user.username)}
  {
    hide UserIdentifier;
    var more := added + multiset{Entered(tag, user)};
    assert Entered(tag, user) in more && forall it :: it in more <==> it in added || it == Entered(tag, user);
    assert forall it :: it in added ==> UserIdentifier(it.1, it.2) in Named(more);
  }

  lemma AppendNeedsAccount(cfg: Cfg, user: User, inbound: Inbound, creds: Credentials)
    requires HasTag(cfg, inbound.tag)
    ensures Append(cfg, user, inbound, creds).Some? <==> Add(user, inbound, creds).Succeeds()
  {
  }

  /** The entry built for a user is an entry of that user and of nobody else. */
  lemma AccountIsOwn(op: Op, uid: Uid, username: string)
    requires op.Add? && op.Succeeds()
    ensures BuildAccount(op.Identifier(), op.inbound.protocol, op.creds).value.Is(UserIdentifier(uid, username))
       <==> op.user.id == uid && op.user.username == username
  {
    hide UserIdentifier;
    IdentifierNotEmpty(uid, username);
    if op.Identifier() == UserIdentifier(uid, username) {
      IdentifierInjective(op.user.id, op.user.username, uid, username);
    }
  }

  predicate Declares(inbounds: seq<RawInbound>, tag: Tag) {
    exists j :: 0 <= j < |inbounds| && inbounds[j].tag == tag
  }

  lemma {:induction false} ServedDeclared(inbounds: seq<RawInbound>)
    ensures forall i :: 0 <= i < |Served(inbounds)| ==>
              Served(inbounds)[i].tag != "" && Declares(inbounds, Served(inbounds)[i].tag)
  {
    if inbounds == [] {
    } else {
      var init := inbounds[..|inbounds| - 1];
      ServedDeclared(init);
      forall tag | Declares(init, tag) ensures Declares(inbounds, tag) {
        var j :| 0 <= j < |init| && init[j].tag == tag;
        assert inbounds[j].tag == tag;
      }
      assert Declares(inbounds, inbounds[|inbounds| - 1].tag);
    }
  }

  lemma {:induction false} ServedDistinct(inbounds: seq<RawInbound>)
    requires UniqueTags(inbounds)
    ensures DistinctTags(Served(inbounds))
  {
    if inbounds == [] {
    } else {
      var init, last := inbounds[..|inbounds| - 1], inbounds[|inbounds| - 1];
      assert forall j :: 0 <= j < |init| ==> init[j] == inbounds[j];
      ServedDistinct(init);
      ServedDeclared(init);
      forall i | last.tag != "" && 0 <= i < |Served(init)| ensures Served(init)[i].tag != last.tag {
        assert Declares(init, Served(init)[i].tag);
      }
    }
  }

  predicate UniqueTags(inbounds: seq<RawInbound>) {
    forall i, j :: 0 <= i < j < |inbounds| && inbounds[i].tag != "" ==> inbounds[i].tag != inbounds[j].tag
  }

  lemma ServedIsThere(cfg: Cfg, i: nat)
    requires i < |Served(cfg.inbounds)|
    ensures HasTag(cfg, Served(cfg.inbounds)[i].tag)
  {
    ServedDeclared(cfg.inbounds);
    assert Declares(cfg.inbounds, Served(cfg.inbounds)[i].tag);
  }

  /** Everything an entry is derived from besides the identifier: the user's key, the inbound's
      settings and the configured algorithm. */
  type Derivation = (User, Inbound) -> Credentials

  /** Every stored user gets an account on every inbound it is on. */
  predicate AllDerivable(users: map<Uid, User>, served: seq<Inbound>, creds: Derivation) {
    forall i, id :: 0 <= i < |served| && id in users && OnInbound(users[id], served[i].tag) ==>
      Add(users[id], served[i], creds(users[id], served[i])).Succeeds()
  }

  function Entered(tag: Tag, user: User): (Tag, Uid, string) {
    (tag, user.id, user.username)
  }

  function AllEntered(tag: Tag, listed: seq<User>): set<(Tag, Uid, string)> {
    set i | 0 <= i < |listed| :: Entered(tag, listed[i])
  }

  lemma AllEnteredMore(tag: Tag, listed: seq<User>, user: User)
    ensures AllEntered(tag, listed + [user]) == AllEntered(tag, listed) + {Entered(tag, user)}
    ensures (forall i :: 0 <= i < |listed| ==> listed[i].id != user.id) ==> Entered(tag, user) !in AllEntered(tag, listed)
  {
    var more := listed + [user];
    assert more[|listed|] == user && forall i :: 0 <= i < |listed| ==> more[i] == listed[i];
  }

  /** The users listed for an inbound: every stored user on it. */
  ghost predicate ListedOn(users: map<Uid, User>, tag: Tag, listed: seq<User>) {
    && (forall u :: u in listed <==> u.id in users && users[u.id] == u && OnInbound(u, tag))
    && (forall id :: id in users ==> users[id].id == id)
  }

  lemma ListedAreOnTag(users: map<Uid, User>, tag: Tag, listed: seq<User>)
    requires ListedOn(users, tag, listed)
    ensures AllEntered(tag, listed) == OnTag(users, tag)
  {
  }

  lemma DerivableMore(users: map<Uid, User>, served: seq<Inbound>, inbound: Inbound, listed: seq<User>, creds: Derivation)
    requires ListedOn(users, inbound.tag, listed)
    ensures AllDerivable(users, served + [inbound], creds)
       <==> && AllDerivable(users, served, creds)
            && forall i :: 0 <= i < |listed| ==> Add(listed[i], inbound, creds(listed[i], inbound)).Succeeds()
  {
    var more := served + [inbound];
    assert more[|served|] == inbound && forall i :: 0 <= i < |served| ==> more[i] == served[i];
    assert forall i :: 0 <= i < |listed| ==> listed[i] in listed;
    if forall i :: 0 <= i < |listed| ==> Add(listed[i], inbound, creds(listed[i], inbound)).Succeeds() {
      forall id | id in users && OnInbound(users[id], inbound.tag)
        ensures Add(users[id], inbound, creds(users[id], inbound)).Succeeds()
      {
        assert users[id] in listed;
      }
    }
  }

  lemma GrownNothing(cfg: Cfg)
    ensures Grown(cfg, cfg, multiset{})
  {
  }

  lemma GrownKeepsTags(base: Cfg, cfg: Cfg, added: multiset<(Tag, Uid, string)>, tag: Tag)
    requires Grown(base, cfg, added)
    ensures HasTag(cfg, tag) <==> HasTag(base, tag)
  {
  }

  lemma AppendKeepsTags(cfg: Cfg, user: User, inbound: Inbound, creds: Credentials)
    requires Append(cfg, user, inbound, creds).Some?
    ensures HasTag(Append(cfg, user, inbound, creds).value, inbound.tag) <==> HasTag(cfg, inbound.tag)
  {
    ApplyUsers(cfg, Add(user, inbound, creds), inbound.tag);
  }

  function TagSet(served: seq<Inbound>): set<Tag> {
    set i | 0 <= i < |served| :: served[i].tag
  }

  lemma TagSetMore(served: seq<Inbound>, inbound: Inbound)
    ensures TagSet(served + [inbound]) == TagSet(served) + {inbound.tag}
  {
    var more := served + [inbound];
    assert more[|served|] == inbound && forall i :: 0 <= i < |served| ==> more[i] == served[i];
  }

  function Registered(inbounds: map<Tag, Inbound>, served: seq<Inbound>): map<Tag, Inbound> {
    if served == [] then inbounds
    else
      var last := served[|served| - 1];
      Registered(inbounds, served[..|served| - 1])[last.tag := last]
  }

  /** Registering only depends on what else is registered. */
  lemma {:induction false} RegisterAgain(inbounds: map<Tag, Inbound>, served: seq<Inbound>)
    ensures Registered(inbounds - TagSet(served), served) == Registered(inbounds, served)
  {
    RegisterAfter(inbounds, TagSet(served), served);
  }

  lemma {:induction false} RegisterAfter(inbounds: map<Tag, Inbound>, gone: set<Tag>, served: seq<Inbound>)
    ensures Registered(inbounds - gone, served) == Registered(inbounds, served) - (gone - TagSet(served))
  {
    if served == [] {
    } else {
      var init, last := served[..|served| - 1], served[|served| - 1];
      assert served == init + [last];
      TagSetMore(init, last);
      RegisterAfter(inbounds, gone, init);
    }
  }

  /** The last of the inbounds with this tag is number `i`, or there is none. */
  predicate LastServed(served: seq<Inbound>, tag: Tag, i: Option<nat>) {
    match i
    case None => tag !in TagSet(served)
    case Some(k) => k < |served| && served[k].tag == tag && tag !in TagSet(served[k + 1..])
  }

  /** After registering these inbounds a tag has the last of them with that tag; other tags are as
      they were. */
  lemma {:induction false} RegisteredExactly(inbounds: map<Tag, Inbound>, served: seq<Inbound>, tag: Tag, i: Option<nat>)
    requires LastServed(served, tag, i)
    ensures tag in Registered(inbounds, served) <==> i.Some? || tag in inbounds
    ensures tag in Registered(inbounds, served) ==>
              Registered(inbounds, served)[tag] == if i.Some? then served[i.value] else inbounds[tag]
  {
    if served == [] {
    } else {
      var init, last := served[..|served| - 1], served[|served| - 1];
      assert served == init + [last];
      TagSetMore(init, last);
      if i.Some? && i.value < |init| {
        assert served[i.value + 1..] == init[i.value + 1..] + [last];
        TagSetMore(init[i.value + 1..], last);
      }
      if last.tag != tag {
        RegisteredExactly(inbounds, init, tag, i);
      }
    }
  }

  class Backend {
    const store: Memory
    var runtime: Config?
    var dirty: bool

    constructor (store: Memory)
      ensures this.store == store && runtime == null && !dirty
    {
      this.store, runtime, dirty := store, null, false;
    }

    method AddUser(user: User, inbound: Inbound, creds: Derivation) returns (ok: bool)
      modifies this`dirty, runtime
      ensures ok <==> runtime != null && Append(old(runtime.View()), user, inbound, creds(user, inbound)).Some?
      ensures runtime != null ==> runtime.View() == Apply(old(runtime.View()), Add(user, inbound, creds(user, inbound)))
      ensures dirty <==> old(dirty) || ok
    {
      if runtime == null { return false; }
      ok := runtime.AppendUser(user, inbound, creds(user, inbound));
      if ok { dirty := true; }
    }

    method RemoveUser(user: User, inbound: Inbound) returns (ok: bool)
      modifies this`dirty, runtime
      ensures ok <==> runtime != null
      ensures runtime != null ==> runtime.View() == Apply(old(runtime.View()), Drop(user, inbound))
      ensures dirty <==> old(dirty) || ok
    {
      if runtime == null { return false; }
      runtime.RemoveUser(user, inbound);
      dirty := true;
      return true;
    }

    /** Adds the given users to one inbound; gives up at the first for whom no account can be
        built. */
    method AddAll(cfg: Config, inbound: Inbound, listed: seq<User>, creds: Derivation,
                  ghost base: Cfg, ghost added: multiset<(Tag, Uid, string)>)
      returns (ok: bool)
      requires Grown(base, cfg.View(), added) && HasTag(cfg.View(), inbound.tag)
      requires forall i, j :: 0 <= i < j < |listed| ==> listed[i].id != listed[j].id
      modifies cfg
      ensures ok <==> forall i :: 0 <= i < |listed| ==> Add(listed[i], inbound, creds(listed[i], inbound)).Succeeds()
      ensures ok ==> Grown(base, cfg.View(), added + multiset(AllEntered(inbound.tag, listed)))
    {
      hide Append, HasTag, Grown, UserIdentifier, BuildAccount;
      assert added + multiset(AllEntered(inbound.tag, listed[..0])) == added;
      for j := 0 to |listed|
        invariant Grown(base, cfg.View(), added + multiset(AllEntered(inbound.tag, listed[..j])))
        invariant HasTag(cfg.View(), inbound.tag)
        invariant forall i :: 0 <= i < j ==> Add(listed[i], inbound, creds(listed[i], inbound)).Succeeds()
      {
        var user := listed[j];
        var account := creds(user, inbound);
        AppendNeedsAccount(cfg.View(), user, inbound, account);
        ghost var before, so := cfg.View(), AllEntered(inbound.tag, listed[..j]);
        var appended := cfg.AppendUser(user, inbound, account);
        if !appended { return false; }
        assert cfg.View() == Append(before, user, inbound, account).value;
        AppendKeepsTags(before, user, inbound, account);
        GrowOne(base, before, added + multiset(so), user, inbound, account);
        assert listed[..j + 1] == listed[..j] + [user];
        AllEnteredMore(inbound.tag, listed[..j], user);
        assert added + multiset(so + {Entered(inbound.tag, user)}) == added + multiset(so) + multiset{Entered(inbound.tag, user)};
      }
      assert listed[..|listed|] == listed;
      return true;
    }

    /** Puts the users of the store into a configuration just loaded; gives up at the first
        user for whom no account can be built. */
    method AddStorageUsers(cfg: Config, creds: Derivation) returns (ok: bool)
      requires store.Valid() && cfg.served == Served(cfg.inbounds)
      modifies cfg
      ensures ok <==> AllDerivable(store.users, cfg.served, creds)
      ensures ok ==> Grown(old(cfg.View()), cfg.View(), OnServed(store.users, cfg.served))
    {
      hide Grown, HasTag, Served, OnInbound, UserIdentifier, BuildAccount;
      ghost var base := cfg.View();
      GrownNothing(base);
      for k := 0 to |cfg.served|
        invariant Grown(base, cfg.View(), OnServed(store.users, cfg.served[..k]))
        invariant AllDerivable(store.users, cfg.served[..k], creds)
      {
        var inbound := cfg.served[k];
        ServedIsThere(base, k);
        GrownKeepsTags(base, cfg.View(), OnServed(store.users, cfg.served[..k]), inbound.tag);
        var listed := store.ListInboundUsers(inbound.tag);
        assert forall i :: 0 <= i < |listed| ==> listed[i] in listed;
        ok := AddAll(cfg, inbound, listed, creds, base, OnServed(store.users, cfg.served[..k]));
        assert cfg.served[..k + 1] == cfg.served[..k] + [inbound];
        DerivableMore(store.users, cfg.served[..k], inbound, listed, creds);
        if !ok { return; }
        ListedAreOnTag(store.users, inbound.tag, listed);
        assert cfg.served[..k + 1][..k] == cfg.served[..k];
      }
      assert cfg.served[..|cfg.served|] == cfg.served;
      return true;
    }

    method Start(raw: seq<RawInbound>, creds: Derivation, loads: bool, launches: bool) returns (ok: bool)
      requires store.Valid()
      modifies this`runtime, store`inbounds
      ensures store.Valid()
      ensures store.inbounds == if loads then Registered(old(store.inbounds), Served(raw)) else old(store.inbounds)
      ensures ok <==> loads && launches && AllDerivable(store.users, Served(raw), creds)
      ensures !ok ==> runtime == old(runtime)
      ensures ok ==> runtime != null && fresh(runtime) && runtime.served == Served(raw)
      ensures ok ==> Grown(Cfg(raw, []), runtime.View(), OnServed(store.users, Served(raw)))
    {
      if !loads { return false; }
      var cfg := new Config(raw);
      for k := 0 to |cfg.served|
        invariant runtime == old(runtime) && cfg.View() == Cfg(raw, [])
        invariant store.Valid() && store.inbounds == Registered(old(store.inbounds), cfg.served[..k])
      {
        assert cfg.served[..k + 1][..k] == cfg.served[..k];
        store.RegisterInbound(cfg.served[k]);
      }
      assert cfg.served[..|cfg.served|] == cfg.served;
      ok := AddStorageUsers(cfg, creds);
      if !ok || !launches { return false; }
      runtime := cfg;
    }

    /** `stopped` tells whether the child process could be stopped. */
    method Stop(stopped: bool) returns (ok: bool)
      requires store.Valid()
      modifies this`runtime, store`inbounds
      ensures store.Valid() && runtime == null && ok == stopped
      ensures store.inbounds
           == if old(runtime) == null then old(store.inbounds) else old(store.inbounds) - TagSet(old(runtime).served)
    {
      if runtime != null {
        var served := runtime.served;
        for k := 0 to |served|
          invariant store.Valid() && store.inbounds == old(store.inbounds) - TagSet(served[..k])
        {
          TagSetMore(served[..k], served[k]);
          assert served[..k + 1] == served[..k] + [served[k]];
          store.UnregisterInbound(served[k].tag);
        }
        assert served[..|served|] == served;
      }
      runtime := null;
      return stopped;
    }

    /** A restart keeps every user of the store with its inbounds, and rebuilds the entries from
        them alone. */
    method Restart(raw: seq<RawInbound>, creds: Derivation, stopped: bool, loads: bool, launches: bool) returns (ok: bool)
      requires store.Valid()
      modifies this`runtime, store`inbounds
      ensures store.Valid()
      ensures ok <==> stopped && loads && launches && AllDerivable(store.users, Served(raw), creds)
      ensures runtime != null <==> ok
      ensures var left := if old(runtime) == null then old(store.inbounds)
                          else old(store.inbounds) - TagSet(old(runtime).served);
              store.inbounds == if stopped && loads then Registered(left, Served(raw)) else left
      ensures ok ==> runtime.served == Served(raw)
      ensures ok ==> Grown(Cfg(raw, []), runtime.View(), OnServed(store.users, Served(raw)))
      ensures ok && old(runtime) != null && old(runtime).served == Served(raw)
                && Registered(old(store.inbounds), Served(raw)) == old(store.inbounds)
              ==> store.inbounds == old(store.inbounds)
    {
      ok := Stop(stopped);
      if !ok { return; }
      ok := Start(raw, creds, loads, launches);
      RegisterAgain(old(store.inbounds), Served(raw));
    }
  }

  /** The backend and the store agree about an inbound: its entries are those of the stored users
      on it. */
  ghost predicate Agree(cfg: Cfg, users: map<Uid, User>, tag: Tag) {
    forall uid: Uid, username ::
      Present(cfg, tag, UserIdentifier(uid, username)) <==> Stored(users, tag, uid, username)
  }

  lemma {:induction false} OnServedHas(users: map<Uid, User>, served: seq<Inbound>, tag: Tag, uid: Uid, username: string)
    ensures (tag, uid, username) in OnServed(users, served) <==> tag in TagSet(served) && Stored(users, tag, uid, username)
    ensures DistinctTags(served) ==> OnServed(users, served)[(tag, uid, username)] <= 1
  {
    if served == [] {
    } else {
      var init, last := served[..|served| - 1], served[|served| - 1];
      assert served == init + [last];
      TagSetMore(init, last);
      OnServedHas(users, init, tag, uid, username);
    }
  }

  /** What is in a configuration just built: the entries of the file and the stored users. */
  lemma StartedPresent(raw: seq<RawInbound>, users: map<Uid, User>, cfg: Cfg, tag: Tag, uid: Uid, username: string)
    requires Grown(Cfg(raw, []), cfg, OnServed(users, Served(raw))) && tag in TagSet(Served(raw))
    ensures Present(cfg, tag, UserIdentifier(uid, username))
       <==> Present(Cfg(raw, []), tag, UserIdentifier(uid, username)) || Stored(users, tag, uid, username)
  {
    hide HasTag, UsersOf, UserIdentifier, Copies, Served, OnServed, Stored;
    assert Gained(Cfg(raw, []), cfg, OnServed(users, Served(raw)), tag, uid, username);
    CopiesListed(UsersOf(cfg, tag), UserIdentifier(uid, username));
    CopiesListed(UsersOf(Cfg(raw, []), tag), UserIdentifier(uid, username));
    OnServedHas(users, Served(raw), tag, uid, username);
  }

  /** Whose traffic is counted in a configuration just built: that of the stored users on served inbounds. */
  lemma StartedCounted(raw: seq<RawInbound>, users: map<Uid, User>, cfg: Cfg, uid: Uid, username: string)
    requires Grown(Cfg(raw, []), cfg, OnServed(users, Served(raw)))
    ensures UserIdentifier(uid, username) in cfg.counted
       <==> exists i :: 0 <= i < |Served(raw)| && Stored(users, Served(raw)[i].tag, uid, username)
  {
    hide HasTag, UsersOf, UserIdentifier, Copies, Served, OnServed, Stored;
    var served, identifier := Served(raw), UserIdentifier(uid, username);
    assert identifier in cfg.counted <==> identifier in Named(OnServed(users, served));
    if identifier in Named(OnServed(users, served)) {
      var it :| it in OnServed(users, served) && UserIdentifier(it.1, it.2) == identifier;
      IdentifierInjective(it.1, it.2, uid, username);
      OnServedHas(users, served, it.0, uid, username);
    }
    forall i | 0 <= i < |served| && Stored(users, served[i].tag, uid, username)
      ensures identifier in Named(OnServed(users, served))
    {
      OnServedHas(users, served, served[i].tag, uid, username);
      assert (served[i].tag, uid, username) in OnServed(users, served);
    }
  }

  /** A restart rebuilds a served inbound on which backend and store agreed: exactly the users who
      were on it are on it again, if and only if the file has no entry of a user who was not. */
  lemma RestartRebuilds(raw: seq<RawInbound>, users: map<Uid, User>, before: Cfg, after: Cfg, tag: Tag)
    requires Agree(before, users, tag)
    requires Grown(Cfg(raw, []), after, OnServed(users, Served(raw))) && tag in TagSet(Served(raw))
    ensures (forall uid: Uid, username ::
               Present(after, tag, UserIdentifier(uid, username)) <==> Present(before, tag, UserIdentifier(uid, username)))
       <==> (forall uid: Uid, username ::
               Present(Cfg(raw, []), tag, UserIdentifier(uid, username)) ==> Stored(users, tag, uid, username))
  {
    hide Grown, Present, UserIdentifier, Served, OnServed, Stored;
    forall uid: Uid, username
      ensures Present(after, tag, UserIdentifier(uid, username))
         <==> Present(Cfg(raw, []), tag, UserIdentifier(uid, username)) || Stored(users, tag, uid, username)
    {
      StartedPresent(raw, users, after, tag, uid, username);
    }
  }

  /** Where tags are unique and the file has no entry of the user, it gets a single one. */
  lemma SingleEntry(raw: seq<RawInbound>, users: map<Uid, User>, after: Cfg, tag: Tag, uid: Uid, username: string)
    requires UniqueTags(raw) && tag in TagSet(Served(raw))
    requires Grown(Cfg(raw, []), after, OnServed(users, Served(raw)))
    requires !Present(Cfg(raw, []), tag, UserIdentifier(uid, username))
    ensures Copies(UsersOf(after, tag), UserIdentifier(uid, username)) == if Stored(users, tag, uid, username) then 1 else 0
  {
    hide HasTag, UsersOf, UserIdentifier, Copies, Served, OnServed, Stored;
    assert Gained(Cfg(raw, []), after, OnServed(users, Served(raw)), tag, uid, username);
    ServedDistinct(raw);
    OnServedHas(users, Served(raw), tag, uid, username);
    CopiesListed(UsersOf(Cfg(raw, []), tag), UserIdentifier(uid, username));
  }
}

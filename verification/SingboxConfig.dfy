/** The sing-box configuration held in memory: user lists per inbound, edited in place as
    users come and go, and the list of users whose traffic is counted. */
module SingboxConfig {
  import opened Model
  import opened Identifier

  /** One entry of an inbound's user list; a field the entry lacks reads as "". */
  datatype Entry = Entry(name: string, username: string, secret: string)
  {
    predicate Is(identifier: string) { name == identifier || username == identifier }

    /** An entry of `identifier` is an entry of nobody else. */
    predicate OnlyOf(identifier: string) {
      Is(identifier) ==> name in {"", identifier} && username in {"", identifier}
    }
  }

  /** One inbound of the file; `settings` is what its other fields translate to. */
  datatype RawInbound = RawInbound(tag: Tag, protocol: string, settings: map<string, string>, users: seq<Entry>)

  predicate Supported(protocol: string) {
    protocol in {"shadowsocks", "vmess", "trojan", "vless", "hysteria2", "tuic", "shadowtls"}
  }

  /** The inbounds the backend serves: those with a tag and a supported protocol. */
  function Served(inbounds: seq<RawInbound>): seq<Inbound> {
    if inbounds == [] then []
    else
      var last := inbounds[|inbounds| - 1];
      Served(inbounds[..|inbounds| - 1])
      + (if last.tag != "" && Supported(last.protocol) then [Inbound(last.tag, last.protocol, last.settings)] else [])
  }

  /** What the credential derivation yields for a user: a UUID, unless the key is not one,
      and a password. */
  datatype Credentials = Credentials(uuid: Option<string>, password: string)

  predicate NeedsUuid(protocol: string) {
    protocol in {"vmess", "vless", "tuic"}
  }

  function BuildAccount(identifier: string, protocol: string, creds: Credentials): (r: Option<Entry>)
    ensures r.None? <==> NeedsUuid(protocol) && creds.uuid.None?
    ensures r.Some? ==>
              if protocol in {"naive", "socks", "mixed", "http"} then r.value.username == identifier && r.value.name == ""
              else r.value.name == identifier && r.value.username == ""
    ensures r.Some? ==> Some(r.value.secret) == if NeedsUuid(protocol) then creds.uuid else Some(creds.password)
  {
    if protocol == "vmess" || protocol == "vless" || protocol == "tuic" then
      if creds.uuid.None? then None else Some(Entry(identifier, "", creds.uuid.value))
    else if protocol == "naive" || protocol == "socks" || protocol == "mixed" || protocol == "http" then
      Some(Entry("", identifier, creds.password))
    else Some(Entry(identifier, "", creds.password))
  }

  /** The part of the configuration that users change. */
  datatype Cfg = Cfg(inbounds: seq<RawInbound>, counted: seq<string>)

  /** The position of the first inbound with this tag, or their number if there is none. */
  function IndexOfTag(inbounds: seq<RawInbound>, tag: Tag): (i: nat)
    ensures i <= |inbounds|
    ensures i < |inbounds| ==> inbounds[i].tag == tag
    ensures forall j :: 0 <= j < i ==> inbounds[j].tag != tag
  {
    if inbounds == [] then 0 else if inbounds[0].tag == tag then 0 else 1 + IndexOfTag(inbounds[1..], tag)
  }

  function UsersOf(cfg: Cfg, tag: Tag): seq<Entry> {
    var i := IndexOfTag(cfg.inbounds, tag);
    if i < |cfg.inbounds| then cfg.inbounds[i].users else []
  }

  predicate HasTag(cfg: Cfg, tag: Tag) {
    IndexOfTag(cfg.inbounds, tag) < |cfg.inbounds|
  }

  function WithUsers(cfg: Cfg, tag: Tag, users: seq<Entry>): Cfg {
    var i := IndexOfTag(cfg.inbounds, tag);
    if i < |cfg.inbounds| then cfg.(inbounds := cfg.inbounds[i := cfg.inbounds[i].(users := users)]) else cfg
  }

  function Counted(counted: seq<string>, identifier: string): seq<string> {
    if identifier in counted then counted else counted + [identifier]
  }

  /** The configuration after a user was appended, or nothing if no account could be built;
      no account is needed when no inbound has the tag. */
  function Append(cfg: Cfg, user: User, inbound: Inbound, creds: Credentials): Option<Cfg> {
    var identifier := UserIdentifier(user.id, user.username);
    var counted := Counted(cfg.counted, identifier);
    if !HasTag(cfg, inbound.tag) then Some(cfg.(counted := counted))
    else
      match BuildAccount(identifier, inbound.protocol, creds)
      case None => None
      case Some(account) =>
        Some(WithUsers(cfg, inbound.tag, UsersOf(cfg, inbound.tag) + [account]).(counted := counted))
  }

  function Strip(users: seq<Entry>, identifier: string): seq<Entry> {
    if users == [] then []
    else
      var last := users[|users| - 1];
      Strip(users[..|users| - 1], identifier) + (if last.Is(identifier) then [] else [last])
  }

  function Remove(cfg: Cfg, user: User, inbound: Inbound): Cfg {
    WithUsers(cfg, inbound.tag, Strip(UsersOf(cfg, inbound.tag), UserIdentifier(user.id, user.username)))
  }

  class Config {
    var inbounds: seq<RawInbound>
    var counted: seq<string>
    const served: seq<Inbound>

    /** Loading resets the list of counted users; the rest comes from the file. */
    constructor (inbounds: seq<RawInbound>)
      ensures View() == Cfg(inbounds, []) && served == Served(inbounds)
    {
      var found: seq<Inbound> := [];
      for k := 0 to |inbounds|
        invariant found == Served(inbounds[..k])
      {
        assert inbounds[..k + 1][..k] == inbounds[..k];
        var inbound := inbounds[k];
        if inbound.tag == "" || !Supported(inbound.protocol) { continue; }
        found := found + [Inbound(inbound.tag, inbound.protocol, inbound.settings)];
      }
      assert inbounds[..|inbounds|] == inbounds;
      this.inbounds, served, counted := inbounds, found, [];
    }

    function View(): Cfg
      reads this
    {
      Cfg(inbounds, counted)
    }

    predicate ContainsTag(tag: Tag) {
      exists i :: 0 <= i < |served| && served[i].tag == tag
    }

    method AppendUser(user: User, inbound: Inbound, creds: Credentials) returns (ok: bool)
      modifies this
      ensures ok <==> Append(old(View()), user, inbound, creds).Some?
      ensures View() == if ok then Append(old(View()), user, inbound, creds).value else old(View())
    {
      var identifier := UserIdentifier(user.id, user.username);
      for k := 0 to |inbounds|
        invariant View() == old(View())
        invariant forall j :: 0 <= j < k ==> inbounds[j].tag != inbound.tag
      {
        if inbounds[k].tag != inbound.tag { continue; }
        assert IndexOfTag(inbounds, inbound.tag) == k;
        var account := BuildAccount(identifier, inbound.protocol, creds);
        if account.None? { return false; }
        inbounds := inbounds[k := inbounds[k].(users := inbounds[k].users + [account.value])];
        CountUser(identifier);
        return true;
      }
      CountUser(identifier);
      return true;
    }

    method CountUser(identifier: string)
      modifies this`counted
      ensures counted == Counted(old(counted), identifier)
    {
      for k := 0 to |counted|
        invariant identifier !in counted[..k] && counted == old(counted)
      {
        assert counted[..k + 1] == counted[..k] + [counted[k]];
        if counted[k] == identifier { return; }
      }
      assert counted[..|counted|] == counted;
      counted := counted + [identifier];
    }

    method RemoveUser(user: User, inbound: Inbound)
      modifies this`inbounds
      ensures View() == Remove(old(View()), user, inbound)
    {
      var identifier := UserIdentifier(user.id, user.username);
      for k := 0 to |inbounds|
        invariant View() == old(View())
        invariant forall j :: 0 <= j < k ==> inbounds[j].tag != inbound.tag
      {
        if inbounds[k].tag != inbound.tag { continue; }
        assert IndexOfTag(inbounds, inbound.tag) == k;
        var users := inbounds[k].users;
        var next: seq<Entry> := [];
        for u := 0 to |users|
          invariant next == Strip(users[..u], identifier)
        {
          assert users[..u + 1][..u] == users[..u];
          if users[u].name == identifier || users[u].username == identifier { continue; }
          next := next + [users[u]];
        }
        assert users[..|users|] == users;
        inbounds := inbounds[k := inbounds[k].(users := next)];
        return;
      }
    }
  }

  /** How many entries of the list the identifier has. */
  function Copies(users: seq<Entry>, identifier: string): nat {
    if users == [] then 0
    else
      var last := users[|users| - 1];
      Copies(users[..|users| - 1], identifier) + (if last.Is(identifier) then 1 else 0)
  }

  predicate Present(cfg: Cfg, tag: Tag, identifier: string) {
    exists i :: 0 <= i < |UsersOf(cfg, tag)| && UsersOf(cfg, tag)[i].Is(identifier)
  }

  /** The list without the entries of the identifiers in `touched`. */
  function Others(users: seq<Entry>, touched: set<string>): seq<Entry> {
    if users == [] then []
    else
      var last := users[|users| - 1];
      Others(users[..|users| - 1], touched)
      + (if last.name in touched || last.username in touched then [] else [last])
  }

  /** Which operations are made on a configuration. */
  datatype Op =
    | Add(user: User, inbound: Inbound, creds: Credentials)
    | Drop(user: User, inbound: Inbound)
  {
    function Identifier(): string { UserIdentifier(user.id, user.username) }

    /** Whether an account can be built; taking a user away needs none. */
    predicate Succeeds() { Add? ==> BuildAccount(Identifier(), inbound.protocol, creds).Some? }

    predicate About(tag: Tag, uid: Uid, username: string) {
      inbound.tag == tag && user.id == uid && user.username == username
    }
  }

  /** A failed append leaves everything as it was. */
  function Apply(cfg: Cfg, op: Op): Cfg {
    match op
    case Add(user, inbound, creds) =>
      var r := Append(cfg, user, inbound, creds);
      if r.Some? then r.value else cfg
    case Drop(user, inbound) => Remove(cfg, user, inbound)
  }

  function ApplyAll(cfg: Cfg, ops: seq<Op>): Cfg {
    if ops == [] then cfg else Apply(ApplyAll(cfg, ops[..|ops| - 1]), ops[|ops| - 1])
  }

  /** The last operation about this user on this inbound that did not fail. */
  function LastOp(ops: seq<Op>, tag: Tag, uid: Uid, username: string): Option<Op> {
    if ops == [] then None
    else
      var last := ops[|ops| - 1];
      if last.About(tag, uid, username) && last.Succeeds() then Some(last)
      else LastOp(ops[..|ops| - 1], tag, uid, username)
  }

  /** How many entries a user has who started with `before`: one more for each append that
      did not fail since the last removal. */
  function Surviving(ops: seq<Op>, tag: Tag, uid: Uid, username: string, before: nat): nat {
    if ops == [] then before
    else
      var last, so := ops[|ops| - 1], Surviving(ops[..|ops| - 1], tag, uid, username, before);
      if !(last.About(tag, uid, username) && last.Succeeds()) then so
      else if last.Add? then so + 1
      else 0
  }

  lemma FirstTag(inbounds: seq<RawInbound>, tag: Tag, i: nat)
    requires i <= |inbounds| && (i < |inbounds| ==> inbounds[i].tag == tag)
    requires forall j :: 0 <= j < i ==> inbounds[j].tag != tag
    ensures IndexOfTag(inbounds, tag) == i
  {
  }

  lemma SetUsers(cfg: Cfg, tag: Tag, users: seq<Entry>, other: Tag)
    ensures HasTag(WithUsers(cfg, tag, users), other) <==> HasTag(cfg, other)
    ensures UsersOf(WithUsers(cfg, tag, users), other)
         == if other == tag && HasTag(cfg, tag) then users else UsersOf(cfg, other)
    ensures WithUsers(cfg, tag, users).counted == cfg.counted
  {
    var cfg' := WithUsers(cfg, tag, users);
    assert forall j :: 0 <= j < |cfg.inbounds| ==> cfg'.inbounds[j].tag == cfg.inbounds[j].tag;
    FirstTag(cfg'.inbounds, other, IndexOfTag(cfg.inbounds, other));
  }

  /** What one operation does to the inbound `tag`. */
  lemma ApplyUsers(cfg: Cfg, op: Op, tag: Tag)
    ensures HasTag(Apply(cfg, op), tag) <==> HasTag(cfg, tag)
    ensures UsersOf(Apply(cfg, op), tag)
         == if op.inbound.tag != tag || !HasTag(cfg, tag) || !op.Succeeds() then UsersOf(cfg, tag)
            else if op.Add? then
              UsersOf(cfg, tag) + [BuildAccount(op.Identifier(), op.inbound.protocol, op.creds).value]
            else Strip(UsersOf(cfg, tag), op.Identifier())
    ensures Apply(cfg, op).counted
         == if op.Add? && (HasTag(cfg, op.inbound.tag) ==> op.Succeeds()) then Counted(cfg.counted, op.Identifier())
            else cfg.counted
  {
    hide WithUsers, BuildAccount, Strip;
    var users := UsersOf(cfg, op.inbound.tag);
    if op.Drop? {
      SetUsers(cfg, op.inbound.tag, Strip(users, op.Identifier()), tag);
    } else if op.Succeeds() {
      SetUsers(cfg, op.inbound.tag, users + [BuildAccount(op.Identifier(), op.inbound.protocol, op.creds).value], tag);
    }
  }

  /** Nothing else in the configuration changes: every inbound keeps its place, tag, protocol and
      settings, and those after the first with the tag keep their users. */
  lemma ApplyKeepsRest(cfg: Cfg, op: Op, i: nat)
    requires i < |cfg.inbounds|
    ensures |Apply(cfg, op).inbounds| == |cfg.inbounds|
    ensures var before, after := cfg.inbounds[i], Apply(cfg, op).inbounds[i];
            && after == before.(users := after.users)
            && (before.tag != op.inbound.tag || (exists j :: 0 <= j < i && cfg.inbounds[j].tag == before.tag) ==>
                  after.users == before.users)
  {
    hide BuildAccount, Strip, UserIdentifier;
  }

  /** The served inbounds are those of the file with a tag and one of seven protocols, in their order. */
  lemma {:induction false} ServedExactly(inbounds: seq<RawInbound>, it: Inbound)
    ensures it in Served(inbounds)
       <==> && it.tag != "" && it.protocol in {"shadowsocks", "vmess", "trojan", "vless", "hysteria2", "tuic", "shadowtls"}
            && exists j :: 0 <= j < |inbounds| && inbounds[j].tag == it.tag && inbounds[j].protocol == it.protocol
                           && inbounds[j].settings == it.config
  {
    if inbounds == [] {
    } else {
      var init := inbounds[..|inbounds| - 1];
      ServedExactly(init, it);
      assert forall j :: 0 <= j < |init| ==> init[j] == inbounds[j];
    }
  }

  lemma {:induction false} ServedConcat(first: seq<RawInbound>, rest: seq<RawInbound>)
    ensures Served(first + rest) == Served(first) + Served(rest)
  {
    if rest == [] {
      assert first + rest == first && Served(first) + [] == Served(first);
    } else {
      assert (first + rest)[..|first + rest| - 1] == first + rest[..|rest| - 1];
      ServedConcat(first, rest[..|rest| - 1]);
    }
  }

  predicate Own(users: seq<Entry>, identifier: string) {
    forall i :: 0 <= i < |users| ==> users[i].OnlyOf(identifier)
  }

  lemma OwnMore(users: seq<Entry>, entry: Entry, identifier: string)
    ensures Own(users + [entry], identifier) <==> Own(users, identifier) && entry.OnlyOf(identifier)
  {
    var more := users + [entry];
    assert more[|users|] == entry;
    assert forall i :: 0 <= i < |users| ==> more[i] == users[i];
  }

  lemma {:induction false} StripCopies(users: seq<Entry>, identifier: string, other: string)
    requires Own(users, other) && identifier != ""
    ensures Own(Strip(users, identifier), other)
    ensures Copies(Strip(users, identifier), other) == if other == identifier then 0 else Copies(users, other)
  {
    hide Own;
    if users == [] {
      assert Strip(users, identifier) == users;
    } else {
      var init, last := users[..|users| - 1], users[|users| - 1];
      assert users == init + [last];
      OwnMore(init, last, other);
      StripCopies(init, identifier, other);
      var rest := Strip(init, identifier);
      if last.Is(identifier) {
        assert rest + [] == rest;
      } else {
        OwnMore(rest, last, other);
        CopiesMore(rest, last, other);
      }
    }
  }

  lemma CopiesMore(users: seq<Entry>, entry: Entry, identifier: string)
    ensures Copies(users + [entry], identifier) == Copies(users, identifier) + if entry.Is(identifier) then 1 else 0
  {
  }

  lemma IdentifierNotEmpty(uid: Uid, username: string)
    ensures UserIdentifier(uid, username) != ""
  {
  }

  /** One operation moves the number of a user's entries as it should: only an operation about
      this user moves it. */
  lemma OneOp(cfg: Cfg, op: Op, tag: Tag, uid: Uid, username: string)
    requires HasTag(cfg, tag) && Own(UsersOf(cfg, tag), UserIdentifier(uid, username))
    ensures HasTag(Apply(cfg, op), tag) && Own(UsersOf(Apply(cfg, op), tag), UserIdentifier(uid, username))
    ensures Copies(UsersOf(Apply(cfg, op), tag), UserIdentifier(uid, username))
         == Surviving([op], tag, uid, username, Copies(UsersOf(cfg, tag), UserIdentifier(uid, username)))
  {
    hide Apply, UsersOf, HasTag, UserIdentifier, Strip;
    var identifier, users := UserIdentifier(uid, username), UsersOf(cfg, tag);
    var before := Copies(users, identifier);
    assert Surviving([op][..0], tag, uid, username, before) == before;
    ApplyUsers(cfg, op, tag);
    if op.Identifier() == identifier {
      IdentifierInjective(op.user.id, op.user.username, uid, username);
    }
    IdentifierNotEmpty(op.user.id, op.user.username);
    IdentifierNotEmpty(uid, username);
    if op.Drop? {
      StripCopies(users, op.Identifier(), identifier);
    } else if op.Succeeds() {
      CopiesMore(users, BuildAccount(op.Identifier(), op.inbound.protocol, op.creds).value, identifier);
    }
  }

  /** To its callers the configuration is a set of members per inbound: an operation that does not
      fail puts its user in or takes it out, whether or not it was in, and leaves everybody else. */
  lemma MembershipStep(cfg: Cfg, op: Op, tag: Tag, uid: Uid, username: string)
    requires HasTag(cfg, tag) && Own(UsersOf(cfg, tag), UserIdentifier(uid, username))
    ensures Present(Apply(cfg, op), tag, UserIdentifier(uid, username))
       <==> if op.inbound.tag == tag && op.user.id == uid && op.user.username == username
               && (op.Add? && op.inbound.protocol in {"vmess", "vless", "tuic"} ==> op.creds.uuid.Some?) then op.Add?
            else Present(cfg, tag, UserIdentifier(uid, username))
  {
    hide Apply, UsersOf, HasTag, UserIdentifier, Copies, Own;
    var so := Copies(UsersOf(cfg, tag), UserIdentifier(uid, username));
    OneOp(cfg, op, tag, uid, username);
    assert Surviving([op][..0], tag, uid, username, so) == so;
    CopiesListed(UsersOf(cfg, tag), UserIdentifier(uid, username));
    CopiesListed(UsersOf(Apply(cfg, op), tag), UserIdentifier(uid, username));
  }

  lemma {:induction false} HasTagStays(cfg: Cfg, ops: seq<Op>, tag: Tag)
    ensures HasTag(ApplyAll(cfg, ops), tag) <==> HasTag(cfg, tag)
  {
    if ops == [] {
    } else {
      HasTagStays(cfg, ops[..|ops| - 1], tag);
      ApplyUsers(ApplyAll(cfg, ops[..|ops| - 1]), ops[|ops| - 1], tag);
    }
  }

  lemma {:induction false} CopiesSurvive(cfg: Cfg, ops: seq<Op>, tag: Tag, uid: Uid, username: string)
    requires HasTag(cfg, tag) && Own(UsersOf(cfg, tag), UserIdentifier(uid, username))
    ensures HasTag(ApplyAll(cfg, ops), tag)
    ensures Own(UsersOf(ApplyAll(cfg, ops), tag), UserIdentifier(uid, username))
    ensures Copies(UsersOf(ApplyAll(cfg, ops), tag), UserIdentifier(uid, username))
         == Surviving(ops, tag, uid, username, Copies(UsersOf(cfg, tag), UserIdentifier(uid, username)))
  {
    hide Apply, UsersOf, HasTag, UserIdentifier, Copies, Own;
    if ops == [] {
    } else {
      var init, op := ops[..|ops| - 1], ops[|ops| - 1];
      CopiesSurvive(cfg, init, tag, uid, username);
      OneOp(ApplyAll(cfg, init), op, tag, uid, username);
      var so := Copies(UsersOf(ApplyAll(cfg, init), tag), UserIdentifier(uid, username));
      assert Surviving([op][..0], tag, uid, username, so) == so;
    }
  }

  lemma {:induction false} CopiesListed(users: seq<Entry>, identifier: string)
    ensures Copies(users, identifier) > 0 <==> exists i :: 0 <= i < |users| && users[i].Is(identifier)
  {
    if users == [] {
    } else {
      var init := users[..|users| - 1];
      CopiesListed(init, identifier);
      assert forall i :: 0 <= i < |init| ==> init[i] == users[i];
      if i :| 0 <= i < |users| - 1 && users[i].Is(identifier) {
        assert init[i].Is(identifier);
      }
    }
  }

  lemma {:induction false} LastOpSurvives(ops: seq<Op>, tag: Tag, uid: Uid, username: string, before: nat)
    ensures Surviving(ops, tag, uid, username, before) > 0
       <==> match LastOp(ops, tag, uid, username) case None => before > 0 case Some(op) => op.Add?
  {
    if ops == [] {
    } else {
      LastOpSurvives(ops[..|ops| - 1], tag, uid, username, before);
    }
  }

  /** After any operations, failed ones included, a user is in an inbound if and only if the last
      operation about it there was an append, or there was none and it was there before. */
  lemma LastOpDecides(cfg: Cfg, ops: seq<Op>, tag: Tag, uid: Uid, username: string)
    requires HasTag(cfg, tag) && Own(UsersOf(cfg, tag), UserIdentifier(uid, username))
    ensures Present(ApplyAll(cfg, ops), tag, UserIdentifier(uid, username))
       <==> match LastOp(ops, tag, uid, username)
            case None => Present(cfg, tag, UserIdentifier(uid, username))
            case Some(op) => op.Add?
  {
    hide ApplyAll, UsersOf, HasTag, UserIdentifier, Copies, Own, LastOp, Surviving;
    var identifier := UserIdentifier(uid, username);
    CopiesSurvive(cfg, ops, tag, uid, username);
    LastOpSurvives(ops, tag, uid, username, Copies(UsersOf(cfg, tag), identifier));
    CopiesListed(UsersOf(cfg, tag), identifier);
    CopiesListed(UsersOf(ApplyAll(cfg, ops), tag), identifier);
  }

  lemma {:induction false} OthersOfStrip(users: seq<Entry>, identifier: string, touched: set<string>)
    requires identifier in touched
    ensures Others(Strip(users, identifier), touched) == Others(users, touched)
  {
    if users == [] {
    } else {
      var init, last := users[..|users| - 1], users[|users| - 1];
      OthersOfStrip(init, identifier, touched);
      var rest := Strip(init, identifier);
      assert (rest + [last])[..|rest|] == rest && rest + [] == rest;
    }
  }

  lemma {:induction false} OthersOfNobody(users: seq<Entry>)
    ensures Others(users, {}) == users
  {
    if users == [] {
    } else {
      OthersOfNobody(users[..|users| - 1]);
    }
  }

  lemma OthersMore(users: seq<Entry>, entry: Entry, touched: set<string>)
    requires entry.name in touched || entry.username in touched
    ensures Others(users + [entry], touched) == Others(users, touched)
  {
  }

  /** Entries of everybody whom no operation on the inbound was about stay, in their old order:
      other users and the entries the file came with. */
  lemma {:induction false} OthersKeepOrder(cfg: Cfg, ops: seq<Op>, tag: Tag, touched: set<string>)
    requires forall op :: op in ops && op.inbound.tag == tag ==> op.Identifier() in touched
    ensures Others(UsersOf(ApplyAll(cfg, ops), tag), touched) == Others(UsersOf(cfg, tag), touched)
  {
    hide Apply, UsersOf, HasTag, UserIdentifier, Strip, Others;
    if ops == [] {
    } else {
      var init, op := ops[..|ops| - 1], ops[|ops| - 1];
      var before := ApplyAll(cfg, init);
      OthersKeepOrder(cfg, init, tag, touched);
      ApplyUsers(before, op, tag);
      if op.inbound.tag == tag {
        OthersOfStrip(UsersOf(before, tag), op.Identifier(), touched);
        if op.Add? && op.Succeeds() {
          OthersMore(UsersOf(before, tag), BuildAccount(op.Identifier(), op.inbound.protocol, op.creds).value, touched);
        }
      }
    }
  }

  /** The identifiers of the appends that did not fail. */
  function Appended(cfg: Cfg, ops: seq<Op>): set<string> {
    set op | op in ops && op.Add? && (HasTag(cfg, op.inbound.tag) ==> op.Succeeds()) :: op.Identifier()
  }

  lemma NoneAppended(cfg: Cfg)
    ensures Appended(cfg, []) == {}
  {
  }

  lemma AppendedMore(cfg: Cfg, ops: seq<Op>, op: Op)
    ensures Appended(cfg, ops + [op])
         == Appended(cfg, ops)
            + if op.Add? && (HasTag(cfg, op.inbound.tag) ==> op.Succeeds()) then {op.Identifier()} else {}
  {
  }

  lemma CountedOne(counted: seq<string>, identifier: string)
    ensures counted <= Counted(counted, identifier)
    ensures NoRepeats(counted) ==> NoRepeats(Counted(counted, identifier))
    ensures Elements(Counted(counted, identifier)) == Elements(counted) + {identifier}
  {
  }

  /** The list of counted users never shrinks or repeats itself, and gains exactly the
      identifiers of the appends that did not fail. */
  lemma {:induction false} CountedGrows(cfg: Cfg, ops: seq<Op>)
    ensures cfg.counted <= ApplyAll(cfg, ops).counted
    ensures NoRepeats(cfg.counted) ==> NoRepeats(ApplyAll(cfg, ops).counted)
    ensures Elements(ApplyAll(cfg, ops).counted) == Elements(cfg.counted) + Appended(cfg, ops)
  {
    hide Apply, HasTag, UserIdentifier, BuildAccount, Counted, Appended, NoRepeats;
    if ops == [] {
      assert Appended(cfg, ops) == {} by { NoneAppended(cfg); }
    } else {
      var init, op := ops[..|ops| - 1], ops[|ops| - 1];
      assert ops == init + [op];
      CountedGrows(cfg, init);
      HasTagStays(cfg, init, op.inbound.tag);
      ApplyUsers(ApplyAll(cfg, init), op, op.inbound.tag);
      AppendedMore(cfg, init, op);
      CountedOne(ApplyAll(cfg, init).counted, op.Identifier());
    }
  }
}

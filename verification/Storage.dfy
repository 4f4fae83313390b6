/** The in-memory store of users and registered inbounds. */
module Storage {
  import opened Model

  /** The registered inbounds among `tags`, in the order of `tags`. */
  function Listed(inbounds: map<Tag, Inbound>, tags: seq<Tag>): seq<Inbound> {
    if tags == [] then []
    else
      var last := tags[|tags| - 1];
      Listed(inbounds, tags[..|tags| - 1]) + (if last in inbounds then [inbounds[last]] else [])
  }

  lemma {:induction false} ListedElements(inbounds: map<Tag, Inbound>, tags: seq<Tag>)
    ensures Elements(Listed(inbounds, tags)) == set t | t in tags && t in inbounds :: inbounds[t]
  {
    if tags == [] {
    } else {
      var init, last := tags[..|tags| - 1], tags[|tags| - 1];
      ListedElements(inbounds, init);
      assert tags == init + [last];
      assert Elements(Listed(inbounds, tags))
          == Elements(Listed(inbounds, init)) + if last in inbounds then {inbounds[last]} else {};
    }
  }

  lemma {:induction false} ListedDistinct(inbounds: map<Tag, Inbound>, tags: seq<Tag>)
    requires forall t :: t in inbounds ==> inbounds[t].tag == t
    requires NoRepeats(tags)
    ensures DistinctTags(Listed(inbounds, tags))
  {
    if tags == [] {
    } else {
      var init, last := tags[..|tags| - 1], tags[|tags| - 1];
      ListedDistinct(inbounds, init);
      ListedElements(inbounds, init);
      forall i | 0 <= i < |Listed(inbounds, init)| ensures Listed(inbounds, init)[i].tag != last {
        assert Listed(inbounds, init)[i] in Elements(Listed(inbounds, init));
      }
    }
  }

  /** The order of the tags is kept, unknown ones dropped. */
  lemma {:induction false} ListedConcat(inbounds: map<Tag, Inbound>, first: seq<Tag>, rest: seq<Tag>)
    ensures Listed(inbounds, first + rest) == Listed(inbounds, first) + Listed(inbounds, rest)
  {
    if rest == [] {
      assert first + rest == first && Listed(inbounds, first) + [] == Listed(inbounds, first);
    } else {
      assert (first + rest)[..|first + rest| - 1] == first + rest[..|rest| - 1];
      ListedConcat(inbounds, first, rest[..|rest| - 1]);
    }
  }

  predicate OnInbound(user: User, tag: Tag) {
    exists i :: 0 <= i < |user.inbounds| && user.inbounds[i].tag == tag
  }

  /** `user` taken off the inbound `tag`, its other inbounds in their old order. */
  function Without(inbounds: seq<Inbound>, tag: Tag): seq<Inbound> {
    if inbounds == [] then []
    else
      var last := inbounds[|inbounds| - 1];
      Without(inbounds[..|inbounds| - 1], tag) + (if last.tag != tag then [last] else [])
  }

  method TakeOff(inbounds: seq<Inbound>, tag: Tag) returns (next: seq<Inbound>)
    ensures next == Without(inbounds, tag)
  {
    next := [];
    for k := 0 to |inbounds|
      invariant next == Without(inbounds[..k], tag)
    {
      assert inbounds[..k + 1][..k] == inbounds[..k];
      if inbounds[k].tag != tag {
        next := next + [inbounds[k]];
      }
    }
    assert inbounds[..|inbounds|] == inbounds;
  }

  method TakeOffAll(users: map<Uid, User>, tag: Tag) returns (next: map<Uid, User>)
    ensures next.Keys == users.Keys
    ensures forall id :: id in users ==> next[id] == users[id].(inbounds := Without(users[id].inbounds, tag))
  {
    hide Without;
    next := users;
    var left := users.Keys;
    while left != {}
      invariant next.Keys == users.Keys && left <= users.Keys
      invariant forall id :: id in left ==> next[id] == users[id]
      invariant forall id :: id in users && id !in left ==>
        next[id] == users[id].(inbounds := Without(users[id].inbounds, tag))
      decreases |left|
    {
      var id :| id in left;
      left := left - {id};
      var kept := TakeOff(users[id].inbounds, tag);
      next := next[id := users[id].(inbounds := kept)];
    }
  }

  class Memory {
    var users: map<Uid, User>
    var inbounds: map<Tag, Inbound>

    /** Users are stored under their id and inbounds under their tag. */
    predicate Valid()
      reads this
    {
      && (forall id :: id in users ==> users[id].id == id)
      && (forall t :: t in inbounds ==> inbounds[t].tag == t)
    }

    function Accounts(): map<Uid, Account>
      reads this
    {
      map id | id in users :: AccountOf(users[id])
    }

    constructor ()
      ensures Valid() && users == map[] && inbounds == map[]
    {
      users, inbounds := map[], map[];
    }

    /** Every stored user once, in any order. */
    method ListUsers() returns (out: seq<User>)
      requires Valid()
      ensures forall u :: u in out <==> u.id in users && users[u.id] == u
      ensures forall i, j :: 0 <= i < j < |out| ==> out[i].id != out[j].id
    {
      out := [];
      var left := users.Keys;
      while left != {}
        invariant left <= users.Keys
        invariant forall u :: u in out <==> u.id in users && u.id !in left && users[u.id] == u
        invariant forall i, j :: 0 <= i < j < |out| ==> out[i].id != out[j].id
        decreases |left|
      {
        var id :| id in left;
        left := left - {id};
        assert forall i :: 0 <= i < |out| ==> out[i] in out;
        out := out + [users[id]];
      }
    }

    method GetUser(id: Uid) returns (r: Option<User>)
      ensures r == if id in users then Some(users[id]) else None
    {
      if id !in users { return None; }
      return Some(users[id]);
    }

    method UpdateUserInbounds(user: User, inbounds: seq<Inbound>)
      requires Valid()
      modifies this`users
      ensures Valid()
      ensures users == old(users)[user.id := user.(inbounds := inbounds)]
      ensures Accounts() == old(Accounts())[user.id := Account(user.id, user.username, user.key, Elements(inbounds))]
    {
      users := users[user.id := user.(inbounds := inbounds)];
    }

    method RemoveUser(id: Uid)
      requires Valid()
      modifies this`users
      ensures Valid() && users == old(users) - {id} && Accounts() == old(Accounts()) - {id}
    {
      users := users - {id};
    }

    method FlushUsers()
      requires Valid()
      modifies this`users
      ensures Valid() && users == map[]
    {
      users := map[];
    }

    /** No tags at all stands for every inbound, in any order; otherwise unknown tags are
        dropped and the order of `tags` is kept. */
    method ListInbounds(tags: seq<Tag>) returns (out: seq<Inbound>)
      requires Valid()
      ensures tags == [] ==> Elements(out) == inbounds.Values && DistinctTags(out)
      ensures tags != [] ==> out == Listed(inbounds, tags)
    {
      out := [];
      if |tags| == 0 {
        var left := inbounds.Keys;
        while left != {}
          invariant left <= inbounds.Keys
          invariant forall i :: i in out <==> i.tag in inbounds && i.tag !in left && inbounds[i.tag] == i
          invariant DistinctTags(out)
          decreases |left|
        {
          var tag :| tag in left;
          left := left - {tag};
          assert forall i :: 0 <= i < |out| ==> out[i] in out;
          out := out + [inbounds[tag]];
        }
        forall i ensures i in inbounds.Values <==> i in out {
          if i in out { assert inbounds[i.tag] in inbounds.Values; }
        }
      } else {
        for k := 0 to |tags|
          invariant out == Listed(inbounds, tags[..k])
        {
          assert tags[..k + 1][..k] == tags[..k];
          if tags[k] in inbounds {
            out := out + [inbounds[tags[k]]];
          }
        }
        assert tags[..|tags|] == tags;
      }
    }

    method RegisterInbound(inbound: Inbound)
      requires Valid()
      modifies this`inbounds
      ensures Valid() && inbounds == old(inbounds)[inbound.tag := inbound]
    {
      inbounds := inbounds[inbound.tag := inbound];
    }

    /** The inbound goes, and with it every user's entry for it. */
    method RemoveInbound(tag: Tag)
      requires Valid()
      modifies this
      ensures Valid() && inbounds == old(inbounds) - {tag}
      ensures users.Keys == old(users.Keys)
      ensures forall id :: id in users ==>
                users[id] == old(users)[id].(inbounds := Without(old(users)[id].inbounds, tag))
    {
      inbounds := inbounds - {tag};
      users := TakeOffAll(users, tag);
    }

    /** The inbound goes; users keep their entries for it. */
    method UnregisterInbound(tag: Tag)
      requires Valid()
      modifies this`inbounds
      ensures Valid() && inbounds == old(inbounds) - {tag}
    {
      inbounds := inbounds - {tag};
    }

    /** Every user on the inbound, once, whatever the inbound's registration. */
    method ListInboundUsers(tag: Tag) returns (out: seq<User>)
      requires Valid()
      ensures forall u :: u in out <==> u.id in users && users[u.id] == u && OnInbound(u, tag)
      ensures forall i, j :: 0 <= i < j < |out| ==> out[i].id != out[j].id
    {
      out := [];
      var left := users.Keys;
      while left != {}
        invariant left <= users.Keys
        invariant forall u :: u in out <==> u.id in users && u.id !in left && users[u.id] == u && OnInbound(u, tag)
        invariant forall i, j :: 0 <= i < j < |out| ==> out[i].id != out[j].id
        decreases |left|
      {
        var id :| id in left;
        left := left - {id};
        var user := users[id];
        assert forall i :: 0 <= i < |out| ==> out[i] in out;
        var on := false;
        for k := 0 to |user.inbounds|
          invariant on <==> exists i :: 0 <= i < k && user.inbounds[i].tag == tag
        {
          if user.inbounds[k].tag == tag {
            on := true;
            break;
          }
        }
        if on {
          out := out + [user];
        }
      }
    }
  }

  /** Taking an inbound away leaves exactly the user's other inbounds, in their old order. */
  lemma {:induction false} WithoutElements(inbounds: seq<Inbound>, tag: Tag)
    ensures Elements(Without(inbounds, tag)) == set i | i in inbounds && i.tag != tag
  {
    if inbounds == [] {
    } else {
      var init, last := inbounds[..|inbounds| - 1], inbounds[|inbounds| - 1];
      WithoutElements(init, tag);
      assert inbounds == init + [last];
      assert Elements(Without(inbounds, tag)) == Elements(Without(init, tag)) + if last.tag != tag then {last} else {};
    }
  }

  lemma {:induction false} WithoutConcat(first: seq<Inbound>, rest: seq<Inbound>, tag: Tag)
    ensures Without(first + rest, tag) == Without(first, tag) + Without(rest, tag)
  {
    if rest == [] {
      assert first + rest == first && Without(first, tag) + [] == Without(first, tag);
    } else {
      assert (first + rest)[..|first + rest| - 1] == first + rest[..|rest| - 1];
      WithoutConcat(first, rest[..|rest| - 1], tag);
    }
  }

  lemma {:induction false} WithoutDistinct(inbounds: seq<Inbound>, tag: Tag)
    requires DistinctTags(inbounds)
    ensures DistinctTags(Without(inbounds, tag))
  {
    if inbounds == [] {
    } else {
      var init, last := inbounds[..|inbounds| - 1], inbounds[|inbounds| - 1];
      assert forall i :: 0 <= i < |init| ==> inbounds[i] == init[i];
      WithoutDistinct(init, tag);
      WithoutElements(init, tag);
      forall i | 0 <= i < |Without(init, tag)| ensures Without(init, tag)[i].tag != last.tag {
        assert Without(init, tag)[i] in Elements(Without(init, tag));
      }
    }
  }
}

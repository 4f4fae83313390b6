/** Data shared by every part of the node: users, inbounds, panel messages, and the
    outcome of a single backend call. */
module Model {

  datatype Option<+T> = None | Some(value: T)

  type Uid = x: int | 0 <= x < 0x1_0000_0000

  type Tag = string

  datatype Inbound = Inbound(tag: Tag, protocol: string, config: map<string, string>)

  /** A user as the store holds it; `inbounds` keeps the order in which it was written. */
  datatype User = User(id: Uid, username: string, key: string, inbounds: seq<Inbound>)

  /** A stored user with the order of its inbound list forgotten. */
  datatype Account = Account(id: Uid, username: string, key: string, inbounds: set<Inbound>)

  /** One panel message "user `id` should be on `tags`". A message without a user has
      `id == 0` and empty strings, as the accessors of a nil protobuf user return. */
  datatype UserData = UserData(id: Uid, username: string, key: string, tags: seq<Tag>)
  {
    /** Messages the node acts on; all others are ignored. */
    predicate Valid() { id != 0 && username != "" }
  }

  /** A backend call succeeds with its effect, or fails with or without its effect. */
  datatype Outcome = Done | FailedApplied | FailedUntouched

  /** What the backends answer during one attempt, tag by tag, and whether the caller's
      context is found cancelled after that attempt. */
  datatype Env = Env(add: Tag -> Outcome, remove: Tag -> Outcome, cancelled: bool)

  /** A message together with the backends' answers to each of its attempts, counted from 1. */
  datatype Job = Job(msg: UserData, env: nat -> Env)

  function Elements<T>(xs: seq<T>): set<T> {
    set x | x in xs
  }

  function TagsOf(inbounds: set<Inbound>): set<Tag> {
    set i | i in inbounds :: i.tag
  }

  function AccountOf(u: User): Account {
    Account(u.id, u.username, u.key, Elements(u.inbounds))
  }

  predicate DistinctTags(inbounds: seq<Inbound>) {
    forall i, j :: 0 <= i < j < |inbounds| ==> inbounds[i].tag != inbounds[j].tag
  }

  predicate NoRepeats<T(==)>(xs: seq<T>) {
    forall i, j :: 0 <= i < j < |xs| ==> xs[i] != xs[j]
  }
}

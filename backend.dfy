/**
 * The Redis database as the cache service sees it: string keys holding
 * payloads, set keys holding members, and the servers' key listings and INFO
 * sections. The commands are pure functions from one database to the next.
 */
module Backend {
  import opened Common
  import opened Codec

  /** A string value with the expiry it was written with. */
  datatype Entry = Entry(payload: Payload, ttlDays: nat)

  /**
   * Database 0. Redis keeps strings and sets in one keyspace; this model keeps
   * them in two maps, so a string and a set may share a name here.
   */
  datatype Db = Db(strings: map<string, Entry>, sets: map<string, set<string>>)

  const EmptyDb: Db := Db(map[], map[])

  /** SMEMBERS: an absent set reads as empty. */
  function Members(sets: map<string, set<string>>, name: string): set<string>
  {
    if name in sets then sets[name] else {}
  }

  /** SADD name member. */
  function SetAdd(sets: map<string, set<string>>, name: string, member: string): (r: map<string, set<string>>)
    ensures Members(r, name) == Members(sets, name) + {member}
    ensures forall n :: n != name ==> Members(r, n) == Members(sets, n)
  {
    sets[name := Members(sets, name) + {member}]
  }

  /** SREM name member. */
  function SetRemove(sets: map<string, set<string>>, name: string, member: string): (r: map<string, set<string>>)
    ensures Members(r, name) == Members(sets, name) - {member}
    ensures forall n :: n != name ==> Members(r, n) == Members(sets, n)
  {
    if name in sets then sets[name := sets[name] - {member}] else sets
  }

  /** One section of INFO output: its name and the values of its fields, in order. */
  datatype InfoGroup = InfoGroup(name: string, values: seq<string>)

  /** One endpoint: the keys KEYS reports and the sections INFO reports. */
  datatype Server = Server(keys: seq<string>, info: seq<InfoGroup>)
}

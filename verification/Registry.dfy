/** The skill registry: two maps kept together, and what they mean in terms of the registrations made. */
module Registry {
  import opened Common
  import opened Wire
  import opened SkillKey

  /** A skill as the registry sees it; `Skill<Derived>` fixes `id` to the hash of `name`. */
  datatype Skill = Skill(name: Name, id: nat, version: nat)

  /** A payload buffer carries the id of the skill that made it. */
  datatype Buffer = Buffer(skillId: nat, data: seq<byte>)

  /** What a skill puts in the response to a request; `None` when its factory fails. */
  type Factory = (Skill, seq<byte>) -> Option<seq<byte>>

  datatype Maps = Maps(skills: map<nat, Skill>, nameToId: map<Name, nat>)

  datatype Event = Register(skill: Skill) | Clear

  /** One event; `None` where the process aborts. */
  function Handle(m: Maps, e: Event): Option<Maps> {
    match e
    case Clear => Some(Maps(map[], map[]))
    case Register(s) =>
      if s.id in m.skills && m.skills[s.id].name != s.name then None
      else Some(Maps(m.skills[s.id := s], m.nameToId[s.name := s.id]))
  }

  /** The maps after the first `k` events. */
  function After(h: seq<Event>, k: nat): Option<Maps>
    requires k <= |h|
  {
    if k == 0 then Some(Maps(map[], map[]))
    else
      match After(h, k - 1)
      case None => None
      case Some(m) => Handle(m, h[k - 1])
  }

  lemma {:induction false} AfterPrefix(h: seq<Event>, e: Event, k: nat)
    requires k <= |h|
    ensures After(h + [e], k) == After(h, k)
  {
    if k > 0 { AfterPrefix(h, e, k - 1); }
  }

  /** The registry; `history` is what has been registered and cleared so far. */
  class SkillRegistry {
    var skills: map<nat, Skill>
    var nameToId: map<Name, nat>
    ghost var history: seq<Event>

    ghost predicate Valid()
      reads this
    {
      After(history, |history|) == Some(Maps(skills, nameToId))
    }

    constructor ()
      ensures Valid() && history == []
    {
      skills, nameToId, history := map[], map[], [];
    }

    /** False where the code aborts the process: an id in force under another name. */
    method RegisterSkill(skill: Skill) returns (ok: bool)
      requires Valid()
      modifies this
      ensures Valid()
      ensures ok <==> NoClash(old(history) + [Register(skill)], |old(history)| + 1)
      ensures history == if ok then old(history) + [Register(skill)] else old(history)
    {
      ghost var next := history + [Register(skill)];
      AfterPrefix(history, Register(skill), |history|);
      AbortsExactly(next, |next|);
      var id, name := skill.id, skill.name;
      if id in skills && skills[id].name != name {
        return false;
      }
      nameToId := nameToId[name := id];
      skills := skills[id := skill];
      history := next;
      return true;
    }

    method Clear()
      requires Valid()
      modifies this
      ensures Valid() && history == old(history) + [Event.Clear] && skills == map[] && nameToId == map[]
    {
      AfterPrefix(history, Event.Clear, |history|);
      skills := map[];
      nameToId := map[];
      history := history + [Event.Clear];
    }

    /** The id of the latest registration under that name since the last clear. */
    method GetSkillId(name: Name) returns (id: Option<nat>)
      requires Valid()
      ensures match LastByName(history, |history|, name)
              case None => id == None
              case Some(s) => id == Some(s.id)
    {
      LookupsAreLatest(history, |history|, 0, name);
      return if name in nameToId then Some(nameToId[name]) else None;
    }

    /** The name of the latest registration under that id since the last clear. */
    method GetSkillName(id: nat) returns (name: Name)
      requires Valid()
      ensures match LastById(history, |history|, id)
              case None => name == []
              case Some(s) => name == s.name
    {
      LookupsAreLatest(history, |history|, id, []);
      return if id in skills then skills[id].name else [];
    }

    /** The buffer handed out for a skill id is that skill's and carries that id, whatever was registered. */
    method CreateResponseBuffer(make: Factory, id: nat, request: seq<byte>) returns (b: Option<Buffer>)
      requires Valid()
      ensures match LastById(history, |history|, id)
              case None => b == None
              case Some(s) => b.Some? <==> make(s, request).Some?
      ensures b.Some? ==> b.value.skillId == id && make(LastById(history, |history|, id).value, request) == Some(b.value.data)
    {
      LookupsAreLatest(history, |history|, id, []);
      if id !in skills {
        return None;
      }
      KeyedById(history, |history|, id);
      var skill := skills[id];
      var data := make(skill, request);
      match data
      case None => return None;
      case Some(bytes) => return Some(Buffer(skill.id, bytes));
    }
  }

  function Respond(m: Maps, make: Factory, id: nat, request: seq<byte>): Option<Buffer> {
    if id !in m.skills then None
    else match make(m.skills[id], request)
         case None => None
         case Some(bytes) => Some(Buffer(m.skills[id].id, bytes))
  }

  // ----- The registrations in force

  /** Registration `i` has not been cleared after `k` events. */
  predicate Live(h: seq<Event>, k: nat, i: int)
    requires k <= |h|
  {
    0 <= i < k && h[i].Register? && forall j :: i < j < k ==> h[j].Register?
  }

  /** The latest registration under an id, or under a name, since the last clear. */
  function LastById(h: seq<Event>, k: nat, id: nat): Option<Skill>
    requires k <= |h|
  {
    if k == 0 || h[k - 1].Clear? then None
    else if h[k - 1].skill.id == id then Some(h[k - 1].skill)
    else LastById(h, k - 1, id)
  }

  function LastByName(h: seq<Event>, k: nat, name: Name): Option<Skill>
    requires k <= |h|
  {
    if k == 0 || h[k - 1].Clear? then None
    else if h[k - 1].skill.name == name then Some(h[k - 1].skill)
    else LastByName(h, k - 1, name)
  }

  /** Both lookups answer with the latest registration. */
  lemma {:induction false} LookupsAreLatest(h: seq<Event>, k: nat, id: nat, name: Name)
    requires k <= |h| && After(h, k).Some?
    ensures var m := After(h, k).value;
            && LastById(h, k, id) == (if id in m.skills then Some(m.skills[id]) else None)
            && match LastByName(h, k, name)
               case None => name !in m.nameToId
               case Some(s) => name in m.nameToId && m.nameToId[name] == s.id
  {
    if k > 0 { LookupsAreLatest(h, k - 1, id, name); }
  }

  lemma {:induction false} KeyedById(h: seq<Event>, k: nat, id: nat)
    requires k <= |h| && After(h, k).Some? && id in After(h, k).value.skills
    ensures After(h, k).value.skills[id].id == id
  {
    if k > 0 && h[k - 1].Register? && h[k - 1].skill.id != id { KeyedById(h, k - 1, id); }
  }

  lemma {:induction false} RespondKeepsId(h: seq<Event>, make: Factory, id: nat, request: seq<byte>)
    requires After(h, |h|).Some?
    ensures var b := Respond(After(h, |h|).value, make, id, request);
            b.Some? ==> b.value.skillId == id
  {
    if id in After(h, |h|).value.skills { KeyedById(h, |h|, id); }
  }

  // ----- When registration aborts

  /** Two registrations in force together under one id have one name. */
  ghost predicate NoClash(h: seq<Event>, k: nat)
    requires k <= |h|
  {
    forall i, j :: 0 <= i < j < k && Live(h, j, i) && h[j].Register? && h[i].skill.id == h[j].skill.id
      ==> h[i].skill.name == h[j].skill.name
  }

  /** A registration in force is found under its id, with its name. */
  lemma {:induction false} LiveIsFound(h: seq<Event>, k: nat, i: nat)
    requires k <= |h| && After(h, k).Some? && Live(h, k, i)
    ensures var m := After(h, k).value;
            && h[i].skill.id in m.skills && m.skills[h[i].skill.id].name == h[i].skill.name
            && h[i].skill.name in m.nameToId
  {
    if i < k - 1 {
      assert Live(h, k - 1, i);
      LiveIsFound(h, k - 1, i);
    }
  }

  /** What is found was registered. */
  lemma {:induction false} FoundIsLive(h: seq<Event>, k: nat, id: nat) returns (i: nat)
    requires k <= |h| && After(h, k).Some? && id in After(h, k).value.skills
    ensures Live(h, k, i) && h[i].skill == After(h, k).value.skills[id] && h[i].skill.id == id
  {
    if h[k - 1].skill.id == id {
      i := k - 1;
    } else {
      i := FoundIsLive(h, k - 1, id);
      assert Live(h, k - 1, i);
    }
  }

  lemma {:induction false} NamedIsLive(h: seq<Event>, k: nat, name: Name) returns (i: nat)
    requires k <= |h| && After(h, k).Some? && name in After(h, k).value.nameToId
    ensures Live(h, k, i) && h[i].skill.name == name && h[i].skill.id == After(h, k).value.nameToId[name]
  {
    if h[k - 1].skill.name == name {
      i := k - 1;
    } else {
      i := NamedIsLive(h, k - 1, name);
      assert Live(h, k - 1, i);
    }
  }

  /** The process aborts exactly when two names meet under one id. */
  lemma {:induction false} AbortsExactly(h: seq<Event>, k: nat)
    requires k <= |h|
    ensures After(h, k).Some? <==> NoClash(h, k)
  {
    if k > 0 {
      AbortsExactly(h, k - 1);
      if After(h, k - 1).Some? && h[k - 1].Register? {
        var s := h[k - 1].skill;
        var m := After(h, k - 1).value;
        if s.id in m.skills {
          var i := FoundIsLive(h, k - 1, s.id);
          forall i' | Live(h, k - 1, i') && h[i'].skill.id == s.id ensures h[i'].skill.name == m.skills[s.id].name {
            LiveIsFound(h, k - 1, i');
          }
        } else {
          forall i' | Live(h, k - 1, i') ensures h[i'].skill.id != s.id {
            LiveIsFound(h, k - 1, i');
          }
        }
      }
    }
  }

  // ----- When the two maps are inverse to each other

  ghost predicate Inverse(m: Maps) {
    && (forall name :: name in m.nameToId ==>
          m.nameToId[name] in m.skills && m.skills[m.nameToId[name]].name == name)
    && (forall id :: id in m.skills ==>
          m.skills[id].name in m.nameToId && m.nameToId[m.skills[id].name] == id)
  }

  /** No name is in force under two ids. */
  ghost predicate OneIdPerName(h: seq<Event>, k: nat)
    requires k <= |h|
  {
    forall i, j :: Live(h, k, i) && Live(h, k, j) && h[i].skill.name == h[j].skill.name
      ==> h[i].skill.id == h[j].skill.id
  }

  lemma {:induction false} InverseExactly(h: seq<Event>, k: nat)
    requires k <= |h| && After(h, k).Some?
    ensures Inverse(After(h, k).value) <==> OneIdPerName(h, k)
  {
    var m := After(h, k).value;
    forall name | name in m.nameToId
      ensures m.nameToId[name] in m.skills && m.skills[m.nameToId[name]].name == name
    {
      var i := NamedIsLive(h, k, name);
      LiveIsFound(h, k, i);
    }
    if OneIdPerName(h, k) {
      forall id | id in m.skills ensures m.skills[id].name in m.nameToId && m.nameToId[m.skills[id].name] == id {
        var i := FoundIsLive(h, k, id);
        LiveIsFound(h, k, i);
        var j := NamedIsLive(h, k, m.skills[id].name);
      }
    }
    if Inverse(m) {
      forall i, j | Live(h, k, i) && Live(h, k, j) && h[i].skill.name == h[j].skill.name
        ensures h[i].skill.id == h[j].skill.id
      {
        LiveIsFound(h, k, i);
        LiveIsFound(h, k, j);
      }
    }
  }

  /** So they are for skills whose id is the hash of the name, whatever is registered and cleared. */
  lemma {:induction false} HashedSkillsAreInverse(h: seq<Event>, k: nat)
    requires k <= |h| && After(h, k).Some?
    requires forall i :: 0 <= i < k && h[i].Register? ==> h[i].skill.id == SkillId(h[i].skill.name)
    ensures Inverse(After(h, k).value)
  {
    forall i, j | Live(h, k, i) && Live(h, k, j) && h[i].skill.name == h[j].skill.name
      ensures h[i].skill.id == h[j].skill.id
    {
    }
    InverseExactly(h, k);
  }

  /** A hand-written skill can break it: one name under two ids. */
  lemma {:induction false} TwoIdsBreakInverse(name: Name, p: nat, q: nat)
    requires p != q
    ensures var h := [Register(Skill(name, p, 1)), Register(Skill(name, q, 1))];
            After(h, 2).Some? && !Inverse(After(h, 2).value)
  {
    var h := [Register(Skill(name, p, 1)), Register(Skill(name, q, 1))];
    assert After(h, 1) == Some(Maps(map[p := Skill(name, p, 1)], map[name := p]));
    assert Live(h, 2, 0) && Live(h, 2, 1);
    InverseExactly(h, 2);
  }
}

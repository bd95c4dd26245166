/** Building the registry from the registrations, in whatever order the list presents them. */
module RegistryFold {
  import opened Options

  /** An actor's registration: its type, its name, its table, and the traits it implements. */
  datatype Registration = Registration(typeId: nat, name: string, vtable: nat, traits: seq<(nat, nat)>)

  datatype Interface = Interface(typeId: nat, dynMeta: nat)

  datatype Builder = Builder(
    actorTypes: map<nat, nat>,
    traitTypes: map<nat, seq<Interface>>,
    nameToTypeId: map<string, nat>)

  const EMPTY := Builder(map[], map[], map[])

  function Entries(b: Builder, traitId: nat): seq<Interface> {
    if traitId in b.traitTypes then b.traitTypes[traitId] else []
  }

  function AddTraits(b: Builder, typeId: nat, traits: seq<(nat, nat)>): Builder
    decreases |traits|
  {
    if traits == [] then b
    else
      var (traitId, meta) := traits[0];
      AddTraits(b.(traitTypes := b.traitTypes[traitId := Entries(b, traitId) + [Interface(typeId, meta)]]),
                typeId, traits[1..])
  }

  /** One registration; nothing if its type or its name is taken, which aborts the program. */
  function InitActor(b: Builder, r: Registration): Option<Builder> {
    if r.typeId in b.actorTypes then None
    else if r.name in b.nameToTypeId then None
    else
      var b' := AddTraits(b.(actorTypes := b.actorTypes[r.typeId := r.vtable]), r.typeId, r.traits);
      Some(b'.(nameToTypeId := b'.nameToTypeId[r.name := r.typeId]))
  }

  /** All registrations, in the order of the walk. */
  function Build(regs: seq<Registration>): Option<Builder> {
    if regs == [] then Some(EMPTY)
    else
      var b := Build(regs[..|regs| - 1]);
      if b.None? then None else InitActor(b.value, regs[|regs| - 1])
  }

  function ByName(b: Builder, name: string): Option<(nat, nat)> {
    if name !in b.nameToTypeId then None
    else if b.nameToTypeId[name] !in b.actorTypes then None
    else Some((b.nameToTypeId[name], b.actorTypes[b.nameToTypeId[name]]))
  }

  /** The first entry of a type, as a trait query looks it up. */
  function Find(entries: seq<Interface>, typeId: nat): Option<nat> {
    if entries == [] then None
    else if entries[0].typeId == typeId then Some(entries[0].dynMeta)
    else Find(entries[1..], typeId)
  }

  /** What a registration itself says about a trait: its first mention. */
  function Declared(traits: seq<(nat, nat)>, traitId: nat): Option<nat> {
    if traits == [] then None
    else if traits[0].0 == traitId then Some(traits[0].1)
    else Declared(traits[1..], traitId)
  }

  predicate FirstEntry(entries: seq<Interface>, k: nat, typeId: nat) {
    k < |entries| && entries[k].typeId == typeId && forall j :: 0 <= j < k ==> entries[j].typeId != typeId
  }

  predicate FirstMention(traits: seq<(nat, nat)>, k: nat, traitId: nat) {
    k < |traits| && traits[k].0 == traitId && forall j :: 0 <= j < k ==> traits[j].0 != traitId
  }

  /** The entry found is the first of its type. */
  lemma {:induction false} FindIsFirst(entries: seq<Interface>, typeId: nat)
    ensures match Find(entries, typeId)
      case None => forall k :: 0 <= k < |entries| ==> entries[k].typeId != typeId
      case Some(meta) => exists k: nat :: FirstEntry(entries, k, typeId) && entries[k].dynMeta == meta
  {
    if entries != [] && entries[0].typeId == typeId {
      assert FirstEntry(entries, 0, typeId);
    } else if entries != [] {
      FindIsFirst(entries[1..], typeId);
      if meta :| Find(entries, typeId) == Some(meta) {
        var k: nat :| FirstEntry(entries[1..], k, typeId) && entries[1..][k].dynMeta == meta;
        assert forall j :: 0 < j <= k + 1 ==> entries[j] == entries[1..][j - 1];
        assert FirstEntry(entries, k + 1, typeId);
      }
    }
  }

  /** So is the mention that a registration declares. */
  lemma {:induction false} DeclaredIsFirst(traits: seq<(nat, nat)>, traitId: nat)
    ensures match Declared(traits, traitId)
      case None => forall k :: 0 <= k < |traits| ==> traits[k].0 != traitId
      case Some(meta) => exists k: nat :: FirstMention(traits, k, traitId) && traits[k].1 == meta
  {
    if traits != [] && traits[0].0 == traitId {
      assert FirstMention(traits, 0, traitId);
    } else if traits != [] {
      DeclaredIsFirst(traits[1..], traitId);
      if meta :| Declared(traits, traitId) == Some(meta) {
        var k: nat :| FirstMention(traits[1..], k, traitId) && traits[1..][k].1 == meta;
        assert forall j :: 0 < j <= k + 1 ==> traits[j] == traits[1..][j - 1];
        assert FirstMention(traits, k + 1, traitId);
      }
    }
  }

  predicate DistinctRegistrations(regs: seq<Registration>) {
    forall i, j :: 0 <= i < j < |regs| ==> regs[i].typeId != regs[j].typeId && regs[i].name != regs[j].name
  }

  // ---------- what one registration changes ----------

  lemma {:induction false} FindAppend(entries: seq<Interface>, e: Interface, typeId: nat)
    ensures Find(entries + [e], typeId)
         == if Find(entries, typeId).Some? then Find(entries, typeId)
            else if e.typeId == typeId then Some(e.dynMeta) else None
  {
    if entries == [] {
      assert [] + [e] == [e] && [e][1..] == [];
    } else {
      assert (entries + [e])[1..] == entries[1..] + [e];
      FindAppend(entries[1..], e, typeId);
    }
  }

  lemma {:induction false} AddTraitsEffect(b: Builder, t: nat, traits: seq<(nat, nat)>, traitId: nat, typeId: nat)
    ensures AddTraits(b, t, traits).actorTypes == b.actorTypes
    ensures AddTraits(b, t, traits).nameToTypeId == b.nameToTypeId
    ensures Find(Entries(AddTraits(b, t, traits), traitId), typeId)
         == if Find(Entries(b, traitId), typeId).Some? then Find(Entries(b, traitId), typeId)
            else if typeId == t then Declared(traits, traitId) else None
    decreases |traits|
  {
    if traits != [] {
      var (first, meta) := traits[0];
      var b1 := b.(traitTypes := b.traitTypes[first := Entries(b, first) + [Interface(t, meta)]]);
      AddTraitsEffect(b1, t, traits[1..], traitId, typeId);
      FindAppend(Entries(b, first), Interface(t, meta), typeId);
    }
  }

  predicate HasType(regs: seq<Registration>, t: nat) {
    exists r :: r in regs && r.typeId == t
  }

  predicate HasName(regs: seq<Registration>, name: string) {
    exists r :: r in regs && r.name == name
  }

  /** The registry answers exactly according to the registrations. */
  ghost predicate Answers(b: Builder, regs: seq<Registration>) {
    && (forall t :: t in b.actorTypes <==> HasType(regs, t))
    && (forall n :: n in b.nameToTypeId <==> HasName(regs, n))
    && (forall r :: r in regs ==> ByName(b, r.name) == Some((r.typeId, r.vtable)))
    && (forall r, traitId :: r in regs ==> Find(Entries(b, traitId), r.typeId) == Declared(r.traits, traitId))
    && (forall t, traitId :: t !in b.actorTypes ==> Find(Entries(b, traitId), t) == None)
  }

  lemma InitActorEffect(b: Builder, r: Registration, traitId: nat, t: nat)
    requires r.typeId !in b.actorTypes && r.name !in b.nameToTypeId
    ensures InitActor(b, r).Some?
    ensures InitActor(b, r).value.actorTypes == b.actorTypes[r.typeId := r.vtable]
    ensures InitActor(b, r).value.nameToTypeId == b.nameToTypeId[r.name := r.typeId]
    ensures Find(Entries(InitActor(b, r).value, traitId), t)
         == if Find(Entries(b, traitId), t).Some? then Find(Entries(b, traitId), t)
            else if t == r.typeId then Declared(r.traits, traitId) else None
  {
    AddTraitsEffect(b.(actorTypes := b.actorTypes[r.typeId := r.vtable]), r.typeId, r.traits, traitId, t);
  }

  lemma OneMoreKnown(regs: seq<Registration>, r: Registration, t: nat, name: string)
    ensures HasType(regs + [r], t) <==> HasType(regs, t) || t == r.typeId
    ensures HasName(regs + [r], name) <==> HasName(regs, name) || name == r.name
  {
    assert forall x :: x in regs + [r] <==> x in regs || x == r;
    assert r in regs + [r];
  }

  /** What a registration that was there before is answered. */
  lemma OthersAnswered(b: Builder, regs: seq<Registration>, r: Registration, x: Registration, traitId: nat)
    requires Answers(b, regs) && r.typeId !in b.actorTypes && r.name !in b.nameToTypeId && x in regs
    ensures InitActor(b, r).Some? && ByName(InitActor(b, r).value, x.name) == Some((x.typeId, x.vtable))
    ensures Find(Entries(InitActor(b, r).value, traitId), x.typeId) == Declared(x.traits, traitId)
  {
    InitActorEffect(b, r, traitId, x.typeId);
    assert ByName(b, x.name) == Some((x.typeId, x.vtable));
    assert HasType(regs, x.typeId);
  }

  lemma NewOneAnswered(b: Builder, regs: seq<Registration>, r: Registration, traitId: nat)
    requires Answers(b, regs) && r.typeId !in b.actorTypes && r.name !in b.nameToTypeId
    ensures InitActor(b, r).Some? && ByName(InitActor(b, r).value, r.name) == Some((r.typeId, r.vtable))
    ensures Find(Entries(InitActor(b, r).value, traitId), r.typeId) == Declared(r.traits, traitId)
  {
    InitActorEffect(b, r, traitId, r.typeId);
  }

  lemma OneMore(b: Builder, regs: seq<Registration>, r: Registration)
    requires Answers(b, regs) && r.typeId !in b.actorTypes && r.name !in b.nameToTypeId
    ensures InitActor(b, r).Some? && Answers(InitActor(b, r).value, regs + [r])
  {
    InitActorEffect(b, r, 0, 0);
    var b' := InitActor(b, r).value;
    forall t, name
      ensures t in b'.actorTypes <==> HasType(regs + [r], t)
      ensures name in b'.nameToTypeId <==> HasName(regs + [r], name)
    {
      OneMoreKnown(regs, r, t, name);
    }
    forall x, traitId | x in regs + [r]
      ensures ByName(b', x.name) == Some((x.typeId, x.vtable))
      ensures Find(Entries(b', traitId), x.typeId) == Declared(x.traits, traitId)
    {
      if x in regs {
        OthersAnswered(b, regs, r, x, traitId);
      } else {
        NewOneAnswered(b, regs, r, traitId);
      }
    }
    forall t, traitId | t !in b'.actorTypes
      ensures Find(Entries(b', traitId), t) == None
    {
      InitActorEffect(b, r, traitId, t);
    }
  }

  /** Building succeeds exactly for distinct types and names, and then answers for all of them. */
  lemma {:induction false} BuildIsExact(regs: seq<Registration>)
    ensures Build(regs).Some? <==> DistinctRegistrations(regs)
    ensures Build(regs).Some? ==> Answers(Build(regs).value, regs)
    decreases |regs|
  {
    if regs != [] {
      var n := |regs| - 1;
      BuildIsExact(regs[..n]);
      var b := Build(regs[..n]);
      assert regs == regs[..n] + [regs[n]];
      if b.None? {
        if DistinctRegistrations(regs) {
          DistinctPrefix(regs);
        }
      } else if regs[n].typeId !in b.value.actorTypes && regs[n].name !in b.value.nameToTypeId {
        OneMore(b.value, regs[..n], regs[n]);
        FreeIsDistinct(b.value, regs);
      } else if DistinctRegistrations(regs) {
        DistinctIsFree(b.value, regs);
      }
    }
  }

  lemma TakenByPrefix(b: Builder, regs: seq<Registration>, i: nat)
    requires regs != [] && i < |regs| - 1 && Answers(b, regs[..|regs| - 1])
    ensures regs[i].typeId in b.actorTypes && regs[i].name in b.nameToTypeId
  {
    assert regs[..|regs| - 1][i] == regs[i];
    assert HasType(regs[..|regs| - 1], regs[i].typeId) && HasName(regs[..|regs| - 1], regs[i].name);
  }

  lemma DistinctIsFree(b: Builder, regs: seq<Registration>)
    requires regs != [] && Answers(b, regs[..|regs| - 1]) && DistinctRegistrations(regs)
    ensures regs[|regs| - 1].typeId !in b.actorTypes && regs[|regs| - 1].name !in b.nameToTypeId
  {
    var n := |regs| - 1;
    forall r | r in regs[..n]
      ensures r.typeId != regs[n].typeId && r.name != regs[n].name
    {
      var i :| 0 <= i < n && regs[..n][i] == r;
      assert regs[i] == r;
    }
    assert !HasType(regs[..n], regs[n].typeId);
    assert !HasName(regs[..n], regs[n].name);
  }

  lemma FreeIsDistinct(b: Builder, regs: seq<Registration>)
    requires regs != [] && Answers(b, regs[..|regs| - 1]) && DistinctRegistrations(regs[..|regs| - 1])
    requires regs[|regs| - 1].typeId !in b.actorTypes && regs[|regs| - 1].name !in b.nameToTypeId
    ensures DistinctRegistrations(regs)
  {
    var n := |regs| - 1;
    forall i, j | 0 <= i < j < |regs|
      ensures regs[i].typeId != regs[j].typeId && regs[i].name != regs[j].name
    {
      if j < n {
        assert regs[..n][i] == regs[i] && regs[..n][j] == regs[j];
      } else {
        TakenByPrefix(b, regs, i);
      }
    }
  }

  lemma DistinctPrefix(regs: seq<Registration>)
    requires regs != [] && DistinctRegistrations(regs)
    ensures DistinctRegistrations(regs[..|regs| - 1])
  {
  }

  /** No query can tell two registries apart. */
  ghost predicate SameAnswers(b: Builder, c: Builder) {
    && (forall name :: ByName(b, name) == ByName(c, name))
    && (forall traitId, t :: Find(Entries(b, traitId), t) == Find(Entries(c, traitId), t))
  }

  /** The same registrations in another order make the same registry, as far as any query can tell. */
  lemma OrderDoesNotMatter(regs: seq<Registration>, other: seq<Registration>)
    requires DistinctRegistrations(regs) && DistinctRegistrations(other)
    requires forall r :: r in regs <==> r in other
    ensures Build(regs).Some? && Build(other).Some? && SameAnswers(Build(regs).value, Build(other).value)
  {
    BuildIsExact(regs);
    BuildIsExact(other);
    var b, c := Build(regs).value, Build(other).value;
    forall name
      ensures ByName(b, name) == ByName(c, name)
    {
      SameName(b, regs, c, other, name);
    }
    forall traitId, t
      ensures Find(Entries(b, traitId), t) == Find(Entries(c, traitId), t)
    {
      SameEntry(b, regs, c, other, traitId, t);
    }
  }

  lemma SameName(b: Builder, regs: seq<Registration>, c: Builder, other: seq<Registration>, name: string)
    requires Answers(b, regs) && Answers(c, other) && forall r :: r in regs <==> r in other
    ensures ByName(b, name) == ByName(c, name)
  {
    if HasName(regs, name) {
      var r :| r in regs && r.name == name;
      assert ByName(c, r.name) == Some((r.typeId, r.vtable));
    } else {
      assert !HasName(other, name);
    }
  }

  lemma SameEntry(b: Builder, regs: seq<Registration>, c: Builder, other: seq<Registration>, traitId: nat, t: nat)
    requires Answers(b, regs) && Answers(c, other) && forall r :: r in regs <==> r in other
    ensures Find(Entries(b, traitId), t) == Find(Entries(c, traitId), t)
  {
    if HasType(regs, t) {
      var r :| r in regs && r.typeId == t;
      assert Find(Entries(c, traitId), r.typeId) == Declared(r.traits, traitId);
    } else {
      assert !HasType(other, t);
    }
  }
}

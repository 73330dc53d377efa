/** The relation bookkeeping of an MC particle: its parent and daughter sets and
    its optional pfo target. Particles are addressed by opaque references. */
module MCParticles {
  import opened StatusCodes

  /** A particle pointer: null, or the address of some particle. */
  datatype ParticleRef = Null | Ref(address: nat)

  /** `self` is this particle's own address; the relation sets hold pointers,
      so a null pointer can be inserted like any other. */
  datatype MCParticle = MCParticle(
    self: nat,
    pfoTarget: ParticleRef,
    daughters: set<ParticleRef>,
    parents: set<ParticleRef>)
  {
    /** A particle without parents is the root of its tree. */
    predicate IsRootParticle()
    {
      parents == {}
    }

    /** The particle is its own pfo target. */
    predicate IsPfoTarget()
    {
      pfoTarget == Ref(self)
    }

    predicate IsPfoTargetSet()
    {
      pfoTarget != Null
    }

    /** The pfo target, or NOT_INITIALIZED while it is unset. */
    function GetPfoTarget(): (r: Result<ParticleRef>)
      ensures r.Err? <==> !IsPfoTargetSet()
      ensures r.Err? ==> r.code == NotInitialized
      ensures r.Ok? ==> r.value != Null && r.value == pfoTarget
    {
      if pfoTarget == Null then Err(NotInitialized) else Ok(pfoTarget)
    }

    function AddDaughter(p: ParticleRef): (r: (StatusCode, MCParticle))
      ensures r.0 == AlreadyPresent <==> p in daughters
      ensures r.0 == Success <==> p !in daughters
      ensures r.1.daughters == daughters + {p}
      ensures r.1 == this.(daughters := r.1.daughters)
    {
      var (status, s) := Insert(daughters, p);
      (status, this.(daughters := s))
    }

    function AddParent(p: ParticleRef): (r: (StatusCode, MCParticle))
      ensures r.0 == AlreadyPresent <==> p in parents
      ensures r.0 == Success <==> p !in parents
      ensures r.1.parents == parents + {p}
      ensures r.1 == this.(parents := r.1.parents)
    {
      var (status, s) := Insert(parents, p);
      (status, this.(parents := s))
    }

    function RemoveDaughter(p: ParticleRef): (r: (StatusCode, MCParticle))
      ensures r.0 == NotFound <==> p !in daughters
      ensures r.0 == Success <==> p in daughters
      ensures r.1.daughters == daughters - {p}
      ensures r.1 == this.(daughters := r.1.daughters)
    {
      var (status, s) := Erase(daughters, p);
      (status, this.(daughters := s))
    }

    function RemoveParent(p: ParticleRef): (r: (StatusCode, MCParticle))
      ensures r.0 == NotFound <==> p !in parents
      ensures r.0 == Success <==> p in parents
      ensures r.1.parents == parents - {p}
      ensures r.1 == this.(parents := r.1.parents)
    {
      var (status, s) := Erase(parents, p);
      (status, this.(parents := s))
    }

    /** A null argument is refused with FAILURE and changes nothing; any other
        pointer becomes the pfo target. */
    function SetPfoTarget(p: ParticleRef): (r: (StatusCode, MCParticle))
      ensures r.0 == Failure <==> p == Null
      ensures r.0 == Success <==> p != Null
      ensures p == Null ==> r.1 == this
      ensures p != Null ==> r.1 == this.(pfoTarget := p)
    {
      if p == Null then (Failure, this) else (Success, this.(pfoTarget := p))
    }
  }

  /** `std::set::insert` reporting whether the element was new. */
  function Insert(s: set<ParticleRef>, p: ParticleRef): (StatusCode, set<ParticleRef>)
  {
    if p in s then (AlreadyPresent, s) else (Success, s + {p})
  }

  /** `find` followed by `erase`, reporting NOT_FOUND for a missing element. */
  function Erase(s: set<ParticleRef>, p: ParticleRef): (StatusCode, set<ParticleRef>)
  {
    if p !in s then (NotFound, s) else (Success, s - {p})
  }

  /** Adding a daughter that was absent and removing it again restores the
      particle, and so does the same round trip on parents. */
  lemma AddThenRemoveRestores(m: MCParticle, p: ParticleRef)
    ensures p !in m.daughters ==> m.AddDaughter(p).1.RemoveDaughter(p) == (Success, m)
    ensures p !in m.parents ==> m.AddParent(p).1.RemoveParent(p) == (Success, m)
  {
    if p !in m.daughters {
      assert m.daughters + {p} - {p} == m.daughters;
    }
    if p !in m.parents {
      assert m.parents + {p} - {p} == m.parents;
    }
  }

  /** Removing a present daughter and adding it back restores the particle,
      and so does the same round trip on parents. */
  lemma RemoveThenAddRestores(m: MCParticle, p: ParticleRef)
    ensures p in m.daughters ==> m.RemoveDaughter(p).1.AddDaughter(p) == (Success, m)
    ensures p in m.parents ==> m.RemoveParent(p).1.AddParent(p) == (Success, m)
  {
    if p in m.daughters {
      assert m.daughters - {p} + {p} == m.daughters;
    }
    if p in m.parents {
      assert m.parents - {p} + {p} == m.parents;
    }
  }

  /** A second insertion of the same pointer is refused and changes nothing. */
  lemma AddTwiceIsRefused(m: MCParticle, p: ParticleRef)
    ensures m.AddDaughter(p).1.AddDaughter(p) == (AlreadyPresent, m.AddDaughter(p).1)
    ensures m.AddParent(p).1.AddParent(p) == (AlreadyPresent, m.AddParent(p).1)
  {
  }

  /** Root-ness follows the parent set: adding a parent makes a particle
      non-root, and removing its only parent makes it root again. Daughter
      operations never change it. */
  lemma RootParticleFollowsParents(m: MCParticle, p: ParticleRef)
    ensures !m.AddParent(p).1.IsRootParticle()
    ensures m.parents == {p} ==> m.RemoveParent(p).1.IsRootParticle()
    ensures m.AddDaughter(p).1.IsRootParticle() == m.IsRootParticle()
    ensures m.RemoveDaughter(p).1.IsRootParticle() == m.IsRootParticle()
  {
    assert p in m.AddParent(p).1.parents;
  }

  /** After a successful SetPfoTarget the target reads back, is set, and the
      particle is its own target exactly when it pointed at itself. */
  lemma SetPfoTargetReadsBack(m: MCParticle, p: ParticleRef)
    requires m.SetPfoTarget(p).0 == Success
    ensures m.SetPfoTarget(p).1.GetPfoTarget() == Ok(p)
    ensures m.SetPfoTarget(p).1.IsPfoTargetSet()
    ensures m.SetPfoTarget(p).1.IsPfoTarget() <==> p == Ref(m.self)
  {
  }
}

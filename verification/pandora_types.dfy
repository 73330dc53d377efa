/** PandoraType<T>: a value together with a flag that says whether it has been
    set. Reading an unset value is an error. */
module PandoraTypes {
  import opened StatusCodes

  /** `stored` is Some(t) exactly when the initialised flag is set and t was the
      last value written. Reset in the source clears only the flag and leaves the
      old value in the field, where no operation can read it any more, so the
      model drops it. */
  datatype PandoraType<T> = PandoraType(stored: Option<T>) {

    predicate IsInitialized()
    {
      stored.Some?
    }

    /** The value, or NOT_INITIALIZED (thrown by the source) when unset. */
    function Get(): (r: Result<T>)
      ensures r.Ok? <==> IsInitialized()
      ensures r.Err? ==> r.code == NotInitialized
    {
      match stored
      case None => Err(NotInitialized)
      case Some(t) => Ok(t)
    }

    /** Store `t` and mark the value initialised. */
    function Set(t: T): (p: PandoraType<T>)
      ensures p.IsInitialized()
      ensures p.Get() == Ok(t)
    {
      PandoraType(Some(t))
    }

    /** Mark the value uninitialised; any later Get fails until the next Set. */
    function Reset(): (p: PandoraType<T>)
      ensures !p.IsInitialized()
      ensures p.Get() == Err(NotInitialized)
    {
      PandoraType(None)
    }

    /** `operator=`: the same effect as Set, and the returned flag is the new
        initialised flag, so it is always true. */
    function Assign(rhs: T): (r: (bool, PandoraType<T>))
      ensures r.0
      ensures r.1 == Set(rhs)
      ensures r.1.Get() == Ok(rhs)
    {
      var p := Set(rhs);
      (p.IsInitialized(), p)
    }
  }

  /** The default constructor: not initialised. */
  function Uninitialized<T>(): (p: PandoraType<T>)
    ensures !p.IsInitialized()
    ensures p.Get() == Err(NotInitialized)
  {
    PandoraType(None)
  }

  /** The value constructor: initialised and holding `t`, the same value as
      default construction followed by Set. */
  function Initialized<T>(t: T): (p: PandoraType<T>)
    ensures p.IsInitialized()
    ensures p.Get() == Ok(t)
    ensures p == Uninitialized<T>().Set(t)
  {
    PandoraType(Some(t))
  }

  /** The last write wins: a second Set overrides the first, whatever came before. */
  lemma LastWriteWins<T>(p: PandoraType<T>, a: T, b: T)
    ensures p.Set(a).Set(b).Get() == Ok(b)
    ensures p.Set(a).Set(b) == p.Set(b)
  {
  }

  /** Reset undoes initialisation, and a Set after a Reset behaves as the value
      constructor does. */
  lemma ResetThenSet<T>(p: PandoraType<T>, t: T)
    ensures p.Set(t).Reset().Get() == Err(NotInitialized)
    ensures p.Reset().Set(t) == Initialized(t)
    ensures Uninitialized<T>().Set(t) == Initialized(t)
    ensures p.Reset() == Uninitialized<T>()
  {
  }
}

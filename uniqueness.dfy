/**
 * The uniqueness decision of AbstractGlobalIdServiceBean.isGlobalIdUnique: the local object
 * store is authoritative, the remote registry is asked only when the local store has no
 * duplicate, and a failed remote lookup counts as "not found".
 */
module Uniqueness {
  import opened GlobalIds

  /** What alreadyExists(GlobalId) does: returns true, returns false, or throws. */
  datatype RemoteLookup = Found | NotFound | Failed

  /**
   * The two sources of truth: dvObjectService.isGlobalIdLocallyUnique and the registry's
   * alreadyExists(GlobalId). Neither body is part of this model.
   */
  datatype Registry = Registry(locallyUnique: GlobalId -> bool, remote: GlobalId -> RemoteLookup)

  /** isGlobalIdUnique. */
  function IsGlobalIdUnique(reg: Registry, g: GlobalId): bool
  {
    if !reg.locallyUnique(g) then
      false
    else
      match reg.remote(g)
      case Found => false
      case NotFound => true
      case Failed => true
  }

  /**
   * A duplicate in the local store decides the answer: the id is not unique, whatever the
   * registry would have said (the registry is never consulted).
   */
  lemma LocalDuplicateDecides(reg: Registry, g: GlobalId, otherRemote: GlobalId -> RemoteLookup)
    requires !reg.locallyUnique(g)
    ensures !IsGlobalIdUnique(reg, g)
    ensures IsGlobalIdUnique(reg.(remote := otherRemote), g) == IsGlobalIdUnique(reg, g)
  {
  }

  /**
   * Past the local store, the answer is the negation of the registry's: unique exactly when
   * the registry did not find the id, a failed lookup included.
   */
  lemma RemoteDecidesWhenLocallyUnique(reg: Registry, g: GlobalId)
    requires reg.locallyUnique(g)
    ensures IsGlobalIdUnique(reg, g) <==> reg.remote(g) != Found
    ensures reg.remote(g) == Failed ==> IsGlobalIdUnique(reg, g)
  {
  }

  /** Unique holds exactly when the local store has no duplicate and the registry did not find the id. */
  lemma UniqueCharacterisation(reg: Registry, g: GlobalId)
    ensures IsGlobalIdUnique(reg, g) <==> reg.locallyUnique(g) && reg.remote(g) != Found
  {
  }
}

/**
 * The soft-delete convention every table follows: the two flags and the two
 * timestamps of the shared base model, and `soft_delete`, which updates them in
 * place on the ORM object.
 */
module AbstractBase {

  /** The four shared columns. Times are seconds. */
  datatype Base = Base(isActive: bool, isDeleted: bool, createdAt: int, updatedAt: int)

  /** The column defaults of a newly inserted row. */
  function NewBase(now: int): (b: Base)
    ensures b.isActive && !b.isDeleted
    ensures b.createdAt == now && b.updatedAt == now
  {
    Base(true, false, now, now)
  }

  /** The columns after `soft_delete` ran at time `now`. */
  function SoftDeleted(b: Base, now: int): (r: Base)
    ensures !r.isActive && r.isDeleted
    ensures r.updatedAt == now && r.createdAt == b.createdAt
  {
    b.(isActive := false, isDeleted := true, updatedAt := now)
  }

  /** Soft-deleting twice leaves the flags as soft-deleting once; only the timestamp moves. */
  lemma SoftDeleteIdempotent(b: Base, t1: int, t2: int)
    ensures SoftDeleted(SoftDeleted(b, t1), t2) == SoftDeleted(b, t2)
    ensures SoftDeleted(SoftDeleted(b, t1), t2).isActive == SoftDeleted(b, t1).isActive
    ensures SoftDeleted(SoftDeleted(b, t1), t2).isDeleted == SoftDeleted(b, t1).isDeleted
  {
  }

  /** An ORM object of a table built on the base model. */
  class Entity {
    var isActive: bool
    var isDeleted: bool
    var createdAt: int
    var updatedAt: int

    function Columns(): Base
      reads this
    {
      Base(isActive, isDeleted, createdAt, updatedAt)
    }

    /** A row as the database inserts it: active, not deleted, both timestamps `now`. */
    constructor (now: int)
      ensures Columns() == NewBase(now)
    {
      isActive, isDeleted := true, false;
      createdAt, updatedAt := now, now;
    }

    /** `soft_delete`: three field updates, returning the same object. */
    method SoftDelete(now: int) returns (same: Entity)
      modifies this
      ensures Columns() == SoftDeleted(old(Columns()), now)
      ensures same == this
    {
      isActive := false;
      isDeleted := true;
      updatedAt := now;
      same := this;
    }
  }
}

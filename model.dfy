/** The quota side of the owning user: how much storage the user's files
    occupy and how much the user's group allows. */
module Model {

  class User {
    /** Bytes currently charged to the user. */
    var storage: nat
    /** Bytes the user's group allows in total. */
    const maxStorage: nat

    constructor (storage: nat, maxStorage: nat)
      ensures this.storage == storage && this.maxStorage == maxStorage
    {
      this.storage := storage;
      this.maxStorage := maxStorage;
    }

    /** Reserves `size` bytes when they fit under the allowance; otherwise
        changes nothing and reports failure. */
    method IncreaseStorage(size: nat) returns (ok: bool)
      modifies this
      ensures ok <==> old(storage) + size <= maxStorage
      ensures storage == if ok then old(storage) + size else old(storage)
    {
      ok := storage + size <= maxStorage;
      if ok {
        storage := storage + size;
      }
    }

    /** Gives `size` bytes back; fails, changing nothing, when fewer than
        `size` bytes are charged (the counter would go below zero). */
    method DeductionStorage(size: nat) returns (ok: bool)
      modifies this
      ensures ok <==> size <= old(storage)
      ensures storage == if ok then old(storage) - size else old(storage)
    {
      ok := size <= storage;
      if ok {
        storage := storage - size;
      }
    }
  }
}

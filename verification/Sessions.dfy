/** The request-scoped database session: work is invisible until committed, an exception discards
    whatever was not committed yet. */
module Sessions {

  class Session<T> {
    var committed: T
    var working: T

    constructor (contents: T)
      ensures committed == working == contents
    {
      committed, working := contents, contents;
    }

    method Commit()
      modifies this`committed
      ensures committed == working
    {
      committed := working;
    }

    method Rollback()
      modifies this`working
      ensures working == committed
    {
      working := committed;
    }

    /** The end of the request bracket: commit after a normal return, roll back after an exception. */
    method Close(raised: bool)
      modifies this
      ensures working == committed == if raised then old(committed) else old(working)
    {
      if raised { Rollback(); } else { Commit(); }
    }
  }
}

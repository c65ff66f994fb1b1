/** ServerQueueDataContext: the holder of the database context the queue
    facades use. It hands out one cached context and replaces it after a
    fixed number of calls. */
module ContextCache {

  /** Calls served by one context before it is replaced. */
  const GetDbContextCountMax: int := 1000

  /** A DrpServerQueueDataContext instance, seen only as a connection that can
      be disposed. */
  class DbContext {
    const connectionString: string
    var disposed: bool

    constructor Open(connectionString: string)
      ensures this.connectionString == connectionString && !disposed
    {
      this.connectionString := connectionString;
      disposed := false;
    }

    method Dispose()
      modifies this
      ensures disposed
    {
      disposed := true;
    }
  }

  class ServerQueueDataContext {
    var getDbContextCount: int
    var context: DbContext?
    var connectionString: string

    ghost predicate Valid()
      reads this, context
    {
      && 0 <= getDbContextCount <= GetDbContextCountMax
      && context != null && !context.disposed
      && context.connectionString == connectionString
    }

    /** Opens the first context and keeps its connection string. */
    constructor (connectionString: string)
      ensures Valid() && fresh(context)
      ensures this.connectionString == connectionString && getDbContextCount == 0
    {
      getDbContextCount := 0;
      context := new DbContext.Open(connectionString);
      this.connectionString := connectionString;
    }

    /** GetDbContext: counts the call; past the maximum, disposes the cached
        context, restarts the count and opens a new one with the saved
        connection string; otherwise returns the cached context. */
    method GetDbContext() returns (c: DbContext)
      requires Valid()
      modifies this, context
      ensures Valid() && c == context
      ensures connectionString == old(connectionString)
      ensures old(getDbContextCount) < GetDbContextCountMax ==>
        getDbContextCount == old(getDbContextCount) + 1 && c == old(context) && !c.disposed
      ensures old(getDbContextCount) >= GetDbContextCountMax ==>
        getDbContextCount == 0 && fresh(c) && old(context).disposed
    {
      getDbContextCount := getDbContextCount + 1;
      if getDbContextCount > GetDbContextCountMax {
        var old_ := context;
        context := null;
        old_.Dispose();
        getDbContextCount := 0;
      }
      if context == null {
        context := new DbContext.Open(connectionString);
      }
      c := context;
    }
  }

  /** A thousand calls after a fresh start share one context; the call after
      them disposes it and hands out another. */
  method ContextLifetime(holder: ServerQueueDataContext) returns (first: DbContext, next: DbContext)
    requires holder.Valid() && holder.getDbContextCount == 0
    modifies holder, holder.context
    ensures first == old(holder.context) && first.disposed
    ensures next == holder.context && next != first && !next.disposed
    ensures holder.getDbContextCount == 0 && holder.Valid()
  {
    first := holder.GetDbContext();
    var i := 1;
    while i < GetDbContextCountMax
      invariant 1 <= i <= GetDbContextCountMax
      invariant holder.Valid() && holder.context == first && holder.getDbContextCount == i
      invariant holder.connectionString == old(holder.connectionString)
    {
      var c := holder.GetDbContext();
      i := i + 1;
    }
    next := holder.GetDbContext();
  }
}

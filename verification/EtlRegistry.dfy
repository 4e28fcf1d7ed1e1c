/** The ETL registry beside the system tables: who registered each table definition, job or
    connection, and what handing over a table takes along. Items of all kinds share one
    numbering here. */
module EtlRegistry {
  import opened Wrappers

  /** What an item is tied to: a table definition to the table it loads, a job to its table
      definition; connections and free jobs to nothing. */
  datatype Link = Loads(table: int) | RunsFor(definition: int) | Standalone

  datatype Item = Item(owner: Option<int>, link: Link)

  type Registry = map<int, Item>

  predicate Registered(g: Registry, user: int, i: int) {
    i in g && g[i].owner == Some(user)
  }

  /** The user's definition of how a table is loaded. */
  predicate Defines(g: Registry, user: int, table: int, i: int) {
    Registered(g, user, i) && g[i].link == Loads(table)
  }

  /** The user's job for such a definition of the user's. */
  predicate Serves(g: Registry, user: int, table: int, i: int) {
    Registered(g, user, i) && g[i].link.RunsFor? && Defines(g, user, table, g[i].link.definition)
  }

  predicate Linked(g: Registry, user: int, table: int, i: int) {
    Defines(g, user, table, i) || Serves(g, user, table, i)
  }

  /** The registry after the giver's linked items have changed hands. */
  function HandOver(g: Registry, from: int, to: int, table: int): Registry {
    map i | i in g :: if Linked(g, from, table, i) then g[i].(owner := Some(to)) else g[i]
  }

  lemma HandOverAt(g: Registry, from: int, to: int, table: int, i: int)
    ensures var after := HandOver(g, from, to, table);
            && (i in after <==> i in g)
            && (i in g ==> after[i].link == g[i].link)
            && (i in g ==> after[i].owner == if Linked(g, from, table, i) then Some(to) else g[i].owner)
    ensures Linked(g, from, table, i) ==> Registered(g, from, i)
  {
  }

  class RegistryDb {
    var items: Registry

    constructor (items: Registry)
      ensures this.items == items
    {
      this.items := items;
    }

    /** _cascade_transfer_etl_for_table_master: one SELECT of the definitions, then an UPDATE of
        the definitions and one of the jobs. */
    method CascadeTransfer(table: int, from: int, to: int)
      modifies this
      ensures items == HandOver(old(items), from, to, table)
    {
      ghost var g := items;
      var ids := set i | i in items && Defines(items, from, table, i);
      if ids != {} {
        items := map i | i in items :: if Registered(items, from, i) && i in ids then items[i].(owner := Some(to)) else items[i];
        items := map i | i in items ::
          if Registered(items, from, i) && items[i].link.RunsFor? && items[i].link.definition in ids
          then items[i].(owner := Some(to)) else items[i];
      }
      forall i | i in g ensures items[i] == HandOver(g, from, to, table)[i] {
        assert i in ids <==> Defines(g, from, table, i);
        assert g[i].link.RunsFor? ==> (g[i].link.definition in ids <==> Defines(g, from, table, g[i].link.definition));
      }
    }
  }

  /** After a hand-over nothing of the giver's is linked to the table any more, what is linked to
      other tables still is, and items of third users stay theirs. */
  lemma HandOverExactly(g: Registry, from: int, to: int, table: int, i: int, other: int)
    requires from != to
    ensures var after := HandOver(g, from, to, table);
            && !Linked(after, from, table, i)
            && (other != table ==> (Linked(after, from, other, i) <==> Linked(g, from, other, i)))
            && (other != from && other != to ==> (Registered(after, other, i) <==> Registered(g, other, i)))
  {
  }

  /** Giving one item away links nothing new to the giver. */
  lemma OneItemGiven(g: Registry, user: int, to: int, given: int, table: int, i: int)
    requires to != user && given in g
    ensures Linked(g[given := g[given].(owner := Some(to))], user, table, i) ==> Linked(g, user, table, i)
  {
  }
}

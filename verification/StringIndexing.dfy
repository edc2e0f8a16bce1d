/** Installing constraints on strings. The search for a constraint to share has its test the
    wrong way round, and a table keeps the first entry of a key. */
module StringIndexing {
  import opened Events
  import opened Rules
  import opened Indexing

  datatype StringCond = StringCond(name: Name, op: Op, val: Name)

  /** A constraint in use and the predicates connected to it. Its position is its identity. */
  datatype TableConstraint = TableConstraint(cond: StringCond, connected: set<TablePred>)

  predicate SameKey(c: StringCond, d: StringCond) {
    c.name == d.name && c.op == d.op
  }

  /** Only these operators have a table. */
  predicate Tabled(c: StringCond) {
    c.op == EQ || c.op == IN
  }

  ghost predicate Taken(used: seq<TableConstraint>, c: StringCond) {
    exists i :: 0 <= i < |used| && SameKey(c, used[i].cond)
  }

  /** Under one name and operator only one value is ever in use. */
  ghost predicate OneValue(used: seq<TableConstraint>) {
    forall i, j :: 0 <= i < |used| && 0 <= j < |used| && SameKey(used[i].cond, used[j].cond) ==> used[i].cond == used[j].cond
  }

  /** The tables lead to constraints in use, and to one for each that has a table. */
  ghost predicate Listed(used: seq<TableConstraint>, table: map<StringCond, nat>) {
    && (forall c :: c in table ==> Tabled(c) && table[c] < |used| && used[table[c]].cond == c)
    && (forall i :: 0 <= i < |used| && Tabled(used[i].cond) ==> used[i].cond in table)
  }

  /** The predicates counted when a message satisfies `c`. */
  ghost function UsersIn(used: seq<TableConstraint>, table: map<StringCond, nat>, c: StringCond): set<TablePred>
    requires Listed(used, table)
  {
    if c in table then used[table[c]].connected else {}
  }

  /** Connecting `tp` to `c` changed just what it should. */
  ghost predicate Connects(used: seq<TableConstraint>, table: map<StringCond, nat>, used': seq<TableConstraint>, table': map<StringCond, nat>,
                           c: StringCond, tp: TablePred)
    requires Listed(used, table) && Listed(used', table')
  {
    forall d :: UsersIn(used', table', d) == UsersIn(used, table, d) + if d == c then {tp} else {}
  }

  /** When no other value is in use the constraint is created, but a table that has its key keeps
      the constraint that is there. */
  lemma Created(used: seq<TableConstraint>, table: map<StringCond, nat>, c: StringCond, tp: TablePred)
    requires Listed(used, table) && OneValue(used)
    requires forall i :: 0 <= i < |used| && SameKey(c, used[i].cond) ==> used[i].cond == c
    ensures var used', table' := used + [TableConstraint(c, {tp})], if Tabled(c) && c !in table then table[c := |used|] else table;
            Listed(used', table') && OneValue(used')
            && (Connects(used, table, used', table', c, tp) <==> Tabled(c) && (!Taken(used, c) || tp in UsersIn(used, table, c)))
  {
    var used', table' := used + [TableConstraint(c, {tp})], if Tabled(c) && c !in table then table[c := |used|] else table;
    assert forall i :: 0 <= i < |used| ==> used'[i] == used[i];
    assert c in table ==> SameKey(c, used[table[c]].cond);
    assert forall d :: d != c ==> UsersIn(used', table', d) == UsersIn(used, table, d);
    assert Connects(used, table, used', table', c, tp) <==> UsersIn(used', table', c) == UsersIn(used, table, c) + {tp};
    assert used'[|used|] == TableConstraint(c, {tp});
    if !Tabled(c) { assert tp !in UsersIn(used', table', c); }
    if Tabled(c) && Taken(used, c) { assert c in table && UsersIn(used', table', c) == UsersIn(used, table, c); }
  }

  /** Sharing a constraint with another value is never right: `c` itself is in no table. */
  lemma Shared(used: seq<TableConstraint>, table: map<StringCond, nat>, k: nat, c: StringCond, tp: TablePred)
    requires Listed(used, table) && OneValue(used) && k < |used| && SameKey(c, used[k].cond) && used[k].cond != c
    ensures var used' := used[k := used[k].(connected := used[k].connected + {tp})];
            Listed(used', table) && OneValue(used') && !Connects(used, table, used', table, c, tp)
    ensures Taken(used, c) && UsersIn(used, table, c) == {}
  {
    var used' := used[k := used[k].(connected := used[k].connected + {tp})];
    assert c !in table;
    assert tp !in UsersIn(used', table, c);
  }

  class StringConstraintIndex {
    var usedConstraints: seq<TableConstraint>
    /** Name, operator and value -> constraint. */
    var indexes: map<StringCond, nat>

    ghost predicate Valid()
      reads this
    {
      Listed(usedConstraints, indexes) && OneValue(usedConstraints)
    }

    ghost function Users(c: StringCond): set<TablePred>
      requires Valid()
      reads this
    {
      UsersIn(usedConstraints, indexes, c)
    }

    constructor ()
      ensures Valid() && usedConstraints == []
    {
      usedConstraints, indexes := [], map[];
    }

    /** A constraint of the same name and operator but with another value, or -1. */
    method GetConstraint(c: StringCond) returns (found: int)
      ensures -1 <= found < |usedConstraints|
      ensures found == -1 ==> forall i :: 0 <= i < |usedConstraints| && SameKey(c, usedConstraints[i].cond) ==> usedConstraints[i].cond == c
      ensures found >= 0 ==> SameKey(c, usedConstraints[found].cond) && usedConstraints[found].cond != c
    {
      var k := 0;
      while k < |usedConstraints|
        invariant 0 <= k <= |usedConstraints|
        invariant forall i :: 0 <= i < k && SameKey(c, usedConstraints[i].cond) ==> usedConstraints[i].cond == c
      {
        var itc := usedConstraints[k].cond;
        if itc.op == c.op && itc.val != c.val && itc.name == c.name { return k; }
        k := k + 1;
      }
      return -1;
    }

    /** Main result: a predicate is connected to its constraint, and to nothing else, exactly
        when the operator has a table and no constraint on this attribute with this operator is
        in use yet, or the predicate is connected to an equal one already. */
    method InstallConstraint(c: StringCond, tp: TablePred)
      requires Valid()
      modifies this
      ensures Valid()
      ensures (forall d :: Users(d) == old(Users(d)) + if d == c then {tp} else {})
         <==> Tabled(c) && (!Taken(old(usedConstraints), c) || tp in old(Users(c)))
    {
      hide Listed, OneValue, Taken, UsersIn;
      ghost var used, table := usedConstraints, indexes;
      var found := GetConstraint(c);
      if found < 0 {
        Created(used, table, c, tp);
        if Tabled(c) && c !in indexes { indexes := indexes[c := |usedConstraints|]; }
        usedConstraints := usedConstraints + [TableConstraint(c, {tp})];
      } else {
        Shared(used, table, found, c, tp);
        usedConstraints := usedConstraints[found := usedConstraints[found].(connected := usedConstraints[found].connected + {tp})];
      }
      forall d ensures old(Users(d)) == UsersIn(used, table, d) && Users(d) == UsersIn(usedConstraints, indexes, d) {
      }
    }
  }
}

/** `ORDER BY key LIMIT n`: the rows whose rank in the order is below the limit. */
module Batch {
  import opened Collections

  type Id = nat

  /** An ORDER BY key of up to three columns; the row itself breaks ties. */
  datatype Key = Key(first: int, second: int, third: int, row: Id)

  predicate Less(a: Key, b: Key) {
    || a.first < b.first
    || (a.first == b.first && a.second < b.second)
    || (a.first == b.first && a.second == b.second && a.third < b.third)
    || (a.first == b.first && a.second == b.second && a.third == b.third && a.row < b.row)
  }

  predicate Keyed(order: map<Id, Key>) {
    forall i :: i in order ==> order[i].row == i
  }

  function Before(order: map<Id, Key>, id: Id): (r: set<Id>)
    requires id in order
  {
    set j | j in order && Less(order[j], order[id])
  }

  function Take(order: map<Id, Key>, limit: nat): (r: set<Id>)
    ensures r <= order.Keys
  {
    set id | id in order && |Before(order, id)| < limit
  }

  lemma {:induction false} LastExists(order: map<Id, Key>) returns (last: Id)
    requires order != map[] && Keyed(order)
    ensures last in order
    ensures forall j :: j in order && j != last ==> Less(order[j], order[last])
    decreases |order|
  {
    var pick :| pick in order;
    var rest := order - {pick};
    assert forall j :: j in order && j != pick ==> j in rest;
    if rest == map[] {
      last := pick;
    } else {
      assert rest.Keys < order.Keys;
      var best := LastExists(rest);
      last := if Less(order[best], order[pick]) then pick else best;
    }
  }

  lemma TakeWithoutLast(order: map<Id, Key>, last: Id, limit: nat)
    requires last in order
    requires forall j :: j in order && j != last ==> Less(order[j], order[last])
    ensures Take(order, limit) == Take(order - {last}, limit) + if |order| <= limit then {last} else {}
  {
    var rest := order - {last};
    assert rest.Keys == order.Keys - {last};
    forall j | j in rest ensures Before(rest, j) == Before(order, j) {
    }
    assert Before(order, last) == rest.Keys;
  }

  /** A batch holds exactly min(limit, rows) rows. */
  lemma {:induction false} TakeSize(order: map<Id, Key>, limit: nat)
    requires Keyed(order)
    ensures |Take(order, limit)| == if limit < |order| then limit else |order|
    decreases |order|
  {
    if order == map[] {
      assert Take(order, limit) == {};
    } else {
      var last := LastExists(order);
      var rest := order - {last};
      assert rest.Keys == order.Keys - {last};
      TakeSize(rest, limit);
      TakeWithoutLast(order, last, limit);
    }
  }

  /** Rows left behind come after every row taken. */
  lemma TakeIsFirst(order: map<Id, Key>, limit: nat, taken: Id, left: Id)
    requires Keyed(order)
    requires taken in Take(order, limit) && left in order && left !in Take(order, limit)
    ensures Less(order[taken], order[left])
  {
    if Less(order[left], order[taken]) {
      assert Before(order, left) <= Before(order, taken);
      SubsetSize(Before(order, left), Before(order, taken));
    }
  }
}

/** The sum of finitely many weights, as a measure of work that is left. */
module Totals {

  ghost function Total(weights: map<nat, nat>): nat
    decreases |weights|
  {
    if weights == map[] then 0
    else
      var id :| id in weights;
      weights[id] + Total(weights - {id})
  }

  /** The sum does not depend on the order in which it is taken. */
  lemma {:induction false} TotalWithout(weights: map<nat, nat>, id: nat)
    requires id in weights
    ensures Total(weights) == weights[id] + Total(weights - {id})
    decreases |weights|
  {
    var first :| first in weights && Total(weights) == weights[first] + Total(weights - {first});
    if first != id {
      TotalWithout(weights - {first}, id);
      TotalWithout(weights - {id}, first);
      assert weights - {first} - {id} == weights - {id} - {first};
    }
  }

  /** A weight that falls, or goes, lowers the sum. */
  lemma {:induction false} TotalFalls(weights: map<nat, nat>, less: map<nat, nat>, id: nat)
    requires id in weights && less - {id} == weights - {id}
    requires if id in less then less[id] < weights[id] else weights[id] > 0
    ensures Total(less) < Total(weights)
  {
    TotalWithout(weights, id);
    if id in less {
      TotalWithout(less, id);
    } else {
      assert less - {id} == less;
    }
  }
}

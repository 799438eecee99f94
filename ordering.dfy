/**
 * Finite sets of (owner, date) keys that share one owner, listed latest date
 * first, the order an `.order('date', { ascending: false })` query returns.
 */
module Ordering {

  /** A row key: the owner (a user id) and a day number. */
  type DatedKey = (string, int)

  /** All keys belong to the same owner, so their dates are distinct. */
  ghost predicate OneOwner(ks: set<DatedKey>)
  {
    forall k, k' | k in ks && k' in ks :: k.0 == k'.0
  }

  lemma Pick<T>(s: set<T>) returns (x: T)
    requires s != {}
    ensures x in s
  {
    x :| x in s;
  }

  lemma LatestExists(ks: set<DatedKey>)
    requires ks != {}
    ensures exists m :: m in ks && forall k | k in ks :: k.1 <= m.1
  {
    var x := Pick(ks);
    if ks == {x} {
      assert forall k | k in ks :: k.1 <= x.1;
    } else {
      LatestExists(ks - {x});
      var m :| m in ks - {x} && forall k | k in ks - {x} :: k.1 <= m.1;
      var top := if x.1 > m.1 then x else m;
      forall k | k in ks
        ensures k.1 <= top.1
      {
        if k != x {
          assert k in ks - {x};
        }
      }
    }
  }

  /** The key with the latest date. */
  function Latest(ks: set<DatedKey>): (m: DatedKey)
    requires ks != {} && OneOwner(ks)
    ensures m in ks && forall k | k in ks :: k.1 <= m.1
  {
    LatestExists(ks);
    var m :| m in ks && forall k | k in ks :: k.1 <= m.1;
    m
  }

  /** The keys, each once, in strictly decreasing date order. */
  function LatestFirst(ks: set<DatedKey>): (r: seq<DatedKey>)
    requires OneOwner(ks)
    ensures |r| == |ks|
    ensures forall k :: k in r <==> k in ks
    ensures forall i, j | 0 <= i < j < |r| :: r[i].1 > r[j].1
    decreases |ks|
  {
    if ks == {} then []
    else
      var m := Latest(ks);
      [m] + LatestFirst(ks - {m})
  }
}

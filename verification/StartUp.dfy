/** What a transactor does when it starts: it deletes every key it is told of.  Which messages survive that. */
module StartUp {
  import opened Bytes
  import opened Options
  import opened Circle
  import opened Handles
  import opened KeySearch
  import opened KeyLap
  import P = ProbeTable

  /** The table after each of these keys was deleted. */
  function Cleared(t: P.Table, hashOf: Str -> nat, keys: seq<VerStr>): (t': P.Table)
    requires 0 < |t|
    ensures |t'| == |t|
  {
    if keys == [] then t
    else
      var k := keys[|keys| - 1].str;
      P.Del(Cleared(t, hashOf, keys[..|keys| - 1]), Home(hashOf(k), |t|), k)
  }

  lemma ClearedNext(t: P.Table, hashOf: Str -> nat, keys: seq<VerStr>, i: nat)
    requires 0 < |t| && i < |keys|
    ensures var home := Home(hashOf(keys[i].str), |t|);
      Cleared(t, hashOf, keys[..i + 1]) == P.Del(Cleared(t, hashOf, keys[..i]), home, keys[i].str)
  {
    assert keys[..i + 1][..i] == keys[..i];
  }

  /** Deleting one key does not change in which slots another one is. */
  lemma DelElsewhere(t: P.Table, home: nat, k: Str, home': nat, c: Str)
    requires home < |t| && home' < |t| && c != k
    ensures var t' := P.Del(t, home, k);
      && P.Lookup(t', home', c) == P.Lookup(t, home', c) && (P.Removable(t', home', c) <==> P.Removable(t, home', c))
  {
    P.DelIsRemoval(t, home, k);
    var t' := P.Del(t, home, k);
    assert forall i | 0 <= i < |t| :: P.Has(t'[i], c) <==> P.Has(t[i], c);
  }

  lemma {:induction false} OthersSurvive(t: P.Table, hashOf: Str -> nat, keys: seq<VerStr>, c: Str)
    requires 0 < |t| && !Lists(keys, c)
    ensures var t', home := Cleared(t, hashOf, keys), Home(hashOf(c), |t|);
      && P.Lookup(t', home, c) == P.Lookup(t, home, c) && (P.Removable(t', home, c) <==> P.Removable(t, home, c))
  {
    if keys != [] {
      var before, k := keys[..|keys| - 1], keys[|keys| - 1];
      assert k in keys && forall x | x in before :: x in keys;
      OthersSurvive(t, hashOf, before, c);
      DelElsewhere(Cleared(t, hashOf, before), Home(hashOf(k.str), |t|), k.str, Home(hashOf(c), |t|), c);
    }
  }

  /** A key is gone after its deletion if and only if it was not there, or was listed and could be removed. */
  lemma {:induction false} GoneIff(t: P.Table, hashOf: Str -> nat, keys: seq<VerStr>, c: Str)
    requires 0 < |t| && Sorted(keys)
    ensures var home := Home(hashOf(c), |t|);
      P.Lookup(Cleared(t, hashOf, keys), home, c) == None <==>
        P.Lookup(t, home, c) == None || (Lists(keys, c) && P.Removable(t, home, c))
  {
    var home := Home(hashOf(c), |t|);
    if !Lists(keys, c) {
      OthersSurvive(t, hashOf, keys, c);
    } else {
      var before, k := keys[..|keys| - 1], keys[|keys| - 1];
      var u := Cleared(t, hashOf, before);
      if k.str == c {
        LastOnce(keys);
        OthersSurvive(t, hashOf, before, c);
        P.DelIsRemoval(u, home, c);
        if P.Lookup(t, home, c) == None { P.AbsentIsRemovable(t, home, c); }
      } else {
        var x :| x in keys && x.str == c;
        assert keys == before + [k];
        GoneIff(t, hashOf, before, c);
        DelElsewhere(u, Home(hashOf(k.str), |t|), k.str, home, c);
      }
    }
  }

  lemma LastOnce(keys: seq<VerStr>)
    requires Sorted(keys) && keys != []
    ensures !Lists(keys[..|keys| - 1], keys[|keys| - 1].str)
  {
    var before, k := keys[..|keys| - 1], keys[|keys| - 1];
    forall x | x in before ensures x.str != k.str {
      var i :| 0 <= i < |before| && before[i] == x;
      LessIsTotal(keys[i].str, k.str);
    }
  }

  /** A start leaves no key behind if and only if the enumeration lists every key of the table and each can be
      removed: it is in one slot only, and not in the one probed last. */
  lemma StartClearsIff(t: P.Table, hashOf: Str -> nat, keys: seq<VerStr>)
    requires 0 < |t| && Sorted(keys)
    ensures (forall c :: P.Lookup(Cleared(t, hashOf, keys), Home(hashOf(c), |t|), c) == None) <==>
      forall i | 0 <= i < |t| && t[i].Live? ::
        Lists(keys, t[i].key) && P.Removable(t, Home(hashOf(t[i].key), |t|), t[i].key)
  {
    forall c ensures P.Lookup(Cleared(t, hashOf, keys), Home(hashOf(c), |t|), c) == None <==>
      P.Lookup(t, Home(hashOf(c), |t|), c) == None || (Lists(keys, c) && P.Removable(t, Home(hashOf(c), |t|), c))
    {
      GoneIff(t, hashOf, keys, c);
    }
    forall i | 0 <= i < |t| && t[i].Live? ensures P.Lookup(t, Home(hashOf(t[i].key), |t|), t[i].key) != None {
      P.PresentIsFound(t, Home(hashOf(t[i].key), |t|), i);
    }
    forall c | P.Lookup(t, Home(hashOf(c), |t|), c) != None ensures exists i :: 0 <= i < |t| && P.Has(t[i], c) {
      assert P.Has(t[Pos(|t|, Home(hashOf(c), |t|), P.Find(t, Home(hashOf(c), |t|), c, 0))], c);
    }
  }

  /** With a key in slot 0, a start from slot 0 lists that key alone, so every other message survives it: an
      interrupt left in the mailbox down behind one left in the mailbox up, say. */
  lemma MessageSurvives(slots: seq<VerIdx>, t: P.Table, hashOf: Str -> nat, c: Str)
    requires 1 < |slots| == |t| && Live(slots[0]) && (forall i | 0 <= i < |t| :: Live(slots[i]) <==> t[i].Live?)
    requires c != t[0].key
    ensures var keys, home := Keys(slots, t, 0, 0, []), Home(hashOf(c), |t|);
      P.Lookup(Cleared(t, hashOf, keys), home, c) == P.Lookup(t, home, c)
  {
    HitAtStartEnds(slots, t, 0);
    OthersSurvive(t, hashOf, Keys(slots, t, 0, 0, []), c);
  }
}

/**
 The order of keys in a bucket: bytes compared from the front, a proper prefix first. The keys with one prefix are
 contiguous in it, so a cursor that seeks the prefix and stops at the first other key sees exactly those keys.
 */
module KeyOrder {
  import opened RecordCodec

  type Key = seq<byte>

  predicate Less(a: Key, b: Key) {
    b != [] && (a == [] || a[0] < b[0] || (a[0] == b[0] && Less(a[1..], b[1..])))
  }

  predicate HasPrefix(key: Key, prefix: Key) {
    prefix <= key
  }

  lemma {:induction false} LessIrreflexive(a: Key)
    ensures !Less(a, a)
  {
    if a != [] {
      LessIrreflexive(a[1..]);
    }
  }

  lemma {:induction false} LessTransitive(a: Key, b: Key, c: Key)
    requires Less(a, b) && Less(b, c)
    ensures Less(a, c)
  {
    if a != [] && a[0] == b[0] == c[0] {
      LessTransitive(a[1..], b[1..], c[1..]);
    }
  }

  lemma {:induction false} LessTotal(a: Key, b: Key)
    ensures a == b || Less(a, b) || Less(b, a)
  {
    if a != [] && b != [] && a[0] == b[0] {
      LessTotal(a[1..], b[1..]);
      assert a == [a[0]] + a[1..] && b == [b[0]] + b[1..];
    }
  }

  // Every key with the prefix is at or after it.
  lemma {:induction false} PrefixIsFirst(key: Key, prefix: Key)
    requires HasPrefix(key, prefix)
    ensures !Less(key, prefix)
  {
    if prefix != [] {
      PrefixIsFirst(key[1..], prefix[1..]);
    }
  }

  /** Contiguity: a key between the prefix and a key that has it has the prefix too. */
  lemma {:induction false} PrefixIsContiguous(prefix: Key, key: Key, last: Key)
    requires HasPrefix(last, prefix) && !Less(key, prefix) && !Less(last, key)
    ensures HasPrefix(key, prefix)
  {
    if prefix != [] {
      LessTotal(key, prefix);
      LessTotal(key, last);
      assert key != [];
      assert prefix[0] == last[0] == key[0];
      PrefixIsContiguous(prefix[1..], key[1..], last[1..]);
    }
  }

  lemma {:induction false} LeastExists(keys: set<Key>)
    requires keys != {}
    ensures exists k :: k in keys && forall o :: o in keys ==> !Less(o, k)
    decreases |keys|
  {
    var x :| x in keys;
    var rest := keys - {x};
    LessIrreflexive(x);
    if rest != {} {
      LeastExists(rest);
      var k :| k in rest && forall o :: o in rest ==> !Less(o, k);
      if Less(x, k) {
        forall o | o in keys
          ensures !Less(o, x)
        {
          if o != x && Less(o, x) {
            LessTransitive(o, x, k);
          }
        }
      } else {
        assert forall o :: o in keys ==> !Less(o, k);
      }
    } else {
      assert keys == {x};
    }
  }

  function Least(keys: set<Key>): (k: Key)
    requires keys != {}
    ensures k in keys && forall o :: o in keys ==> !Less(o, k)
  {
    LeastExists(keys);
    LeastUnique(keys);
    var k :| k in keys && forall o :: o in keys ==> !Less(o, k);
    k
  }

  lemma LeastUnique(keys: set<Key>)
    ensures forall k, l ::
              && k in keys && l in keys
              && (forall o :: o in keys ==> !Less(o, k))
              && (forall o :: o in keys ==> !Less(o, l))
              ==> k == l
  {
    forall k, l | k in keys && l in keys && (forall o :: o in keys ==> !Less(o, k))
           && (forall o :: o in keys ==> !Less(o, l))
      ensures k == l
    {
      LessTotal(k, l);
    }
  }
}

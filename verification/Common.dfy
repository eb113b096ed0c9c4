/** Values every part of the processor shares: bytes, optional values, and the
    unspecified order in which Go's `range` visits the keys of a map. */
module Common {

  datatype Option<+T> = None | Some(value: T)

  // Go strings and byte slices are sequences of bytes. A byte is a character
  // below 256, so text can be written as a literal.
  type Byte = c: char | c as int < 256 witness 'a'
  type Bytes = seq<Byte>

  function Concat(chunks: seq<Bytes>): Bytes {
    if chunks == [] then [] else chunks[0] + Concat(chunks[1..])
  }

  lemma {:induction false} ConcatSplits(a: seq<Bytes>, b: seq<Bytes>)
    ensures Concat(a + b) == Concat(a) + Concat(b)
  {
    if a == [] {
      assert a + b == b;
    } else {
      assert (a + b)[1..] == a[1..] + b;
      ConcatSplits(a[1..], b);
    }
  }

  lemma ConcatSnoc(a: seq<Bytes>, chunk: Bytes)
    ensures Concat(a + [chunk]) == Concat(a) + chunk
  {
    ConcatSplits(a, [chunk]);
    assert Concat([chunk]) == chunk;
  }

  lemma Associates<T>(a: seq<T>, b: seq<T>, c: seq<T>)
    ensures (a + b) + c == a + (b + c)
  {
  }

  ghost predicate Distinct<T>(s: seq<T>) {
    forall i, j :: 0 <= i < j < |s| ==> s[i] != s[j]
  }

  /** `s` visits every key exactly once, as ranging over a map does. */
  ghost predicate Lists(s: seq<string>, keys: set<string>) {
    (forall k :: k in s <==> k in keys) && Distinct(s)
  }

  ghost function SomeListing(keys: set<string>): (s: seq<string>)
    ensures Lists(s, keys)
  {
    if keys == {} then [] else
      var k :| k in keys;
      [k] + SomeListing(keys - {k})
  }

  /** One resolution of Go's map iteration order: a listing for every key set. */
  type Order = visit: set<string> -> seq<string> | forall keys :: Lists(visit(keys), keys)
    ghost witness keys => SomeListing(keys)

  ghost function SomeOrder(): Order {
    keys => SomeListing(keys)
  }

  /** An order that agrees with `listing` on the key set it lists. */
  ghost function OrderWith(listing: seq<string>, keys: set<string>): (order: Order)
    requires Lists(listing, keys)
    ensures order(keys) == listing
  {
    other => if other == keys then listing else SomeListing(other)
  }

  lemma NoMembers<T>(s: seq<T>)
    ensures (forall x :: x !in s) ==> s == []
  {
    if s != [] {
      assert s[0] in s;
    }
  }

  /** An order that visits `first` before all other keys. */
  ghost function FirstOrder(keys: set<string>, first: string): (order: Order)
    requires first in keys
    ensures order(keys)[0] == first
  {
    ListingCons(first, SomeListing(keys - {first}), keys - {first});
    assert keys - {first} + {first} == keys;
    OrderWith([first] + SomeListing(keys - {first}), keys)
  }

  lemma ListingTail(s: seq<string>, keys: set<string>)
    requires Lists(s, keys) && s != []
    ensures s[0] in keys && Lists(s[1..], keys - {s[0]})
  {
    assert s[0] in s;
    var rest := s[1..];
    forall k ensures k in rest <==> k in keys - {s[0]} {
      if k in rest {
        var i :| 0 <= i < |rest| && rest[i] == k;
        assert s[i + 1] == k;
      }
      if k in keys - {s[0]} {
        assert k in s;
        var i :| 0 <= i < |s| && s[i] == k;
        assert rest[i - 1] == k;
      }
    }
  }

  lemma ListingSnoc(s: seq<string>, keys: set<string>, last: string)
    requires Lists(s, keys) && last !in keys
    ensures Lists(s + [last], keys + {last})
  {
    forall k ensures k in s + [last] <==> k in keys + {last} {
    }
  }

  lemma ListingCons(first: string, s: seq<string>, keys: set<string>)
    requires Lists(s, keys) && first !in keys
    ensures Lists([first] + s, keys + {first})
  {
    forall k ensures k in [first] + s <==> k in keys + {first} {
    }
  }
}

/**
 * The canonical JSON text that schema fingerprints are computed over: compact, object members sorted by key, strings
 * escaped as in section 7 of RFC 8259. A decoder inverts it, so two values have the same text exactly when they agree
 * up to the order of object members, at every depth.
 */
module CanonicalJson {
  import opened Prelude

  type Text = seq<char>

  /** A number is its printed text. Members of an object keep the order in which the document lists them. */
  datatype Json =
    | Null
    | Bool(value: bool)
    | Number(text: Text)
    | String(content: Text)
    | Array(items: seq<Json>)
    | Object(members: seq<Member>)

  datatype Member = Member(key: Text, value: Json)

  // ----- well-formed values -------------------------------------------------------------------------------

  predicate NumberChar(c: char) {
    '0' <= c <= '9' || c == '-' || c == '+' || c == '.' || c == 'e' || c == 'E'
  }

  predicate NumberStart(c: char) {
    '0' <= c <= '9' || c == '-'
  }

  predicate IsNumber(text: Text) {
    text != [] && NumberStart(text[0]) && forall i :: 0 <= i < |text| ==> NumberChar(text[i])
  }

  ghost predicate DistinctKeys(members: seq<Member>) {
    forall i, j :: 0 <= i < j < |members| ==> members[i].key != members[j].key
  }

  /** What a parsed document satisfies: numbers print as numbers, and no object repeats a key. */
  ghost predicate WellFormed(v: Json) {
    match v
    case Number(text) => IsNumber(text)
    case Array(items) => forall i :: 0 <= i < |items| ==> WellFormed(items[i])
    case Object(members) => DistinctKeys(members) && forall i :: 0 <= i < |members| ==> WellFormed(members[i].value)
    case _ => true
  }

  /** Equal up to the order of object members, at every depth. */
  ghost predicate Equivalent(a: Json, b: Json) {
    match a
    case Array(items) =>
      && b.Array? && |items| == |b.items|
      && forall i :: 0 <= i < |items| ==> Equivalent(items[i], b.items[i])
    case Object(members) =>
      && b.Object? && |members| == |b.members|
      && forall i :: 0 <= i < |members| ==> HasPartner(members[i], b.members)
    case _ => a == b
  }

  /** A member of the other object under the same key with an equivalent value. */
  ghost predicate HasPartner(m: Member, members: seq<Member>) {
    exists j :: 0 <= j < |members| && m.key == members[j].key && Equivalent(m.value, members[j].value)
  }

  // ----- the order on keys --------------------------------------------------------------------------------

  /** Lexicographic by code point, which is also the order of the UTF-8 bytes. */
  predicate Before(a: Text, b: Text) {
    if b == [] then false
    else if a == [] then true
    else a[0] < b[0] || (a[0] == b[0] && Before(a[1..], b[1..]))
  }

  lemma {:induction false} BeforeTotal(a: Text, b: Text)
    ensures Before(a, b) || Before(b, a) || a == b
  {
    if a != [] && b != [] {
      BeforeTotal(a[1..], b[1..]);
      assert a == [a[0]] + a[1..] && b == [b[0]] + b[1..];
    }
  }

  lemma {:induction false} BeforeTransitive(a: Text, b: Text, c: Text)
    requires Before(a, b) && Before(b, c)
    ensures Before(a, c)
  {
    if a != [] {
      if a[0] == b[0] && b[0] == c[0] {
        BeforeTransitive(a[1..], b[1..], c[1..]);
      }
    }
  }

  lemma {:induction false} BeforeIrreflexive(a: Text)
    ensures !Before(a, a)
  {
    if a != [] {
      BeforeIrreflexive(a[1..]);
    }
  }

  /** A proper prefix, or smaller where the two first differ. */
  ghost predicate Precedes(a: Text, b: Text) {
    (|a| < |b| && a == b[..|a|]) || exists k :: 0 <= k < |a| && k < |b| && SmallerAt(a, b, k)
  }

  ghost predicate SmallerAt(a: Text, b: Text, k: int)
    requires 0 <= k < |a| && k < |b|
  {
    a[..k] == b[..k] && a[k] < b[k]
  }

  lemma {:induction false} BeforeExactlyWhen(a: Text, b: Text)
    ensures Before(a, b) <==> Precedes(a, b)
  {
    if a != [] && b != [] {
      var a', b' := a[1..], b[1..];
      assert a == [a[0]] + a' && b == [b[0]] + b';
      BeforeExactlyWhen(a', b');
      if a[0] < b[0] {
        assert SmallerAt(a, b, 0);
      } else if a[0] == b[0] {
        PrecedesAfterSame(a', b', a[0]);
      }
    }
  }

  lemma PrecedesAfterSame(a: Text, b: Text, c: char)
    ensures Precedes([c] + a, [c] + b) <==> Precedes(a, b)
  {
    var x, y := [c] + a, [c] + b;
    if k :| 0 <= k < |a| && k < |b| && SmallerAt(a, b, k) {
      assert x[..k + 1] == [c] + a[..k] && y[..k + 1] == [c] + b[..k];
      assert SmallerAt(x, y, k + 1);
    }
    if k :| 0 <= k < |x| && k < |y| && SmallerAt(x, y, k) {
      assert k > 0 && a[..k - 1] == x[..k][1..] && b[..k - 1] == y[..k][1..];
      assert SmallerAt(a, b, k - 1);
    }
    if |x| < |y| && x == y[..|x|] {
      assert a == y[..|x|][1..] == b[..|a|];
    }
    if |a| < |b| && a == b[..|a|] {
      assert x == y[..|x|];
    }
  }

  ghost predicate Ascending(members: seq<Member>) {
    forall i, j :: 0 <= i < j < |members| ==> Before(members[i].key, members[j].key)
  }

  function Insert(m: Member, members: seq<Member>): (r: seq<Member>)
    ensures |r| == |members| + 1
    ensures forall x :: x in r <==> x == m || x in members
  {
    if members == [] then [m]
    else if Before(members[0].key, m.key) then
      assert members == [members[0]] + members[1..];
      [members[0]] + Insert(m, members[1..])
    else [m] + members
  }

  function Sorted(members: seq<Member>): (r: seq<Member>)
    ensures |r| == |members|
    ensures forall x :: x in r <==> x in members
  {
    if members == [] then []
    else
      assert members == [members[0]] + members[1..];
      Insert(members[0], Sorted(members[1..]))
  }

  lemma {:induction false} InsertAscends(m: Member, members: seq<Member>)
    requires Ascending(members) && forall x :: x in members ==> x.key != m.key
    ensures Ascending(Insert(m, members))
  {
    if members != [] {
      var r := Insert(m, members);
      if Before(members[0].key, m.key) {
        InsertAscends(m, members[1..]);
        forall j | 1 <= j < |r| ensures Before(r[0].key, r[j].key) {
          assert r[j] in Insert(m, members[1..]);
          if r[j] != m {
            var k :| 0 <= k < |members[1..]| && members[1..][k] == r[j];
            assert members[k + 1] == r[j];
          }
        }
      } else {
        BeforeTotal(members[0].key, m.key);
        assert members[0] in members;
        forall j | 1 <= j < |r| ensures Before(r[0].key, r[j].key) {
          if j > 1 {
            BeforeTransitive(m.key, members[0].key, members[j - 1].key);
          }
        }
      }
    }
  }

  lemma {:induction false} SortedAscends(members: seq<Member>)
    requires DistinctKeys(members)
    ensures Ascending(Sorted(members))
  {
    if members != [] {
      SortedAscends(members[1..]);
      forall x | x in Sorted(members[1..]) ensures x.key != members[0].key {
        var k :| 0 <= k < |members[1..]| && members[1..][k] == x;
        assert members[k + 1] == x;
      }
      InsertAscends(members[0], Sorted(members[1..]));
    }
  }

  // ----- canonical form -----------------------------------------------------------------------------------

  /** The value with every object's members sorted by key. */
  function Canon(v: Json): Json
    decreases v
  {
    match v
    case Array(items) => Array(CanonItems(items))
    case Object(members) => Object(CanonMembers(Sorted(members), v))
    case _ => v
  }

  function CanonItems(items: seq<Json>): (r: seq<Json>)
    ensures |r| == |items| && forall i :: 0 <= i < |items| ==> r[i] == Canon(items[i])
    decreases items
  {
    if items == [] then [] else [Canon(items[0])] + CanonItems(items[1..])
  }

  function CanonMembers(members: seq<Member>, ghost whole: Json): (r: seq<Member>)
    requires forall m :: m in members ==> m.value < whole
    ensures |r| == |members|
    ensures forall i :: 0 <= i < |members| ==> r[i] == Member(members[i].key, Canon(members[i].value))
    decreases whole, |members|
  {
    if members == [] then []
    else [Member(members[0].key, Canon(members[0].value))] + CanonMembers(members[1..], whole)
  }

  lemma CanonOfMember(v: Json, i: nat)
    requires v.Object? && i < |v.members|
    ensures var sorted := Sorted(v.members);
            |Canon(v).members| == |sorted| == |v.members|
            && Canon(v).members[i] == Member(sorted[i].key, Canon(sorted[i].value))
            && sorted[i] in v.members
  {
    assert Sorted(v.members)[i] in Sorted(v.members);
  }

  ghost predicate HasKey(members: seq<Member>, key: Text) {
    exists j :: 0 <= j < |members| && members[j].key == key
  }

  ghost predicate KeysIn(a: seq<Member>, b: seq<Member>) {
    forall i :: 0 <= i < |a| ==> HasKey(b, a[i].key)
  }

  /** Two ascending lists with the same keys list them in the same order. */
  lemma {:induction false} SameKeysSameOrder(a: seq<Member>, b: seq<Member>)
    requires Ascending(a) && Ascending(b) && |a| == |b|
    requires KeysIn(a, b)
    ensures forall i :: 0 <= i < |a| ==> a[i].key == b[i].key
  {
    if a != [] {
      KeysReachAsFar(a, b);
      var n := |a| - 1;
      forall i | 0 <= i < n ensures HasKey(b[..n], a[..n][i].key) {
        assert HasKey(b, a[i].key);
        var j :| 0 <= j < |b| && b[j].key == a[i].key;
        BeforeIrreflexive(a[n].key);
        assert Before(a[i].key, a[n].key);
        assert b[..n][j].key == a[..n][i].key;
      }
      SameKeysSameOrder(a[..n], b[..n]);
      forall i | 0 <= i < |a| ensures a[i].key == b[i].key {
        if i < n {
          assert a[..n][i].key == b[..n][i].key;
        }
      }
    }
  }

  /** The largest keys agree: `k`-th from below in `a` lies at or after the `k`-th place of `b`. */
  lemma {:induction false} KeyLiesAtOrAfter(a: seq<Member>, b: seq<Member>, k: nat) returns (j: nat)
    requires Ascending(a) && Ascending(b) && |a| == |b| && k < |a|
    requires KeysIn(a, b)
    ensures k <= j < |b| && a[k].key == b[j].key
  {
    assert HasKey(b, a[k].key);
    j :| 0 <= j < |b| && b[j].key == a[k].key;
    if k > 0 {
      var previous := KeyLiesAtOrAfter(a, b, k - 1);
      assert Before(a[k - 1].key, a[k].key);
      BeforeIrreflexive(a[k].key);
      if j < previous {
        assert Before(b[j].key, b[previous].key);
        BeforeTransitive(a[k].key, a[k - 1].key, a[k].key);
      }
    }
  }

  lemma KeysReachAsFar(a: seq<Member>, b: seq<Member>)
    requires Ascending(a) && Ascending(b) && |a| == |b| && a != []
    requires KeysIn(a, b)
    ensures a[|a| - 1].key == b[|b| - 1].key
  {
    var j := KeyLiesAtOrAfter(a, b, |a| - 1);
  }

  lemma {:induction false} EquivalentHaveSameCanon(a: Json, b: Json)
    requires WellFormed(a) && WellFormed(b) && Equivalent(a, b)
    ensures Canon(a) == Canon(b)
    decreases a
  {
    match a
    case Array(items) =>
      forall i | 0 <= i < |items| ensures Canon(items[i]) == Canon(b.items[i]) {
        EquivalentHaveSameCanon(items[i], b.items[i]);
      }
      assert CanonItems(items) == CanonItems(b.items);
    case Object(members) =>
      SortedKeysAgree(a, b);
      var sa, sb := Sorted(members), Sorted(b.members);
      forall i | 0 <= i < |sa| ensures Canon(a).members[i] == Canon(b).members[i] {
        CanonOfMember(a, i);
        CanonOfMember(b, i);
        var x, y := Partners(a, b, sa[i]);
        SameKeySameMember(b.members, y, sb[i]);
        EquivalentHaveSameCanon(x.value, y.value);
      }
      assert Canon(a).members == Canon(b).members;
    case _ =>
  }

  lemma SortedKeysAgree(a: Json, b: Json)
    requires a.Object? && WellFormed(a) && WellFormed(b) && Equivalent(a, b)
    ensures |Sorted(a.members)| == |Sorted(b.members)|
    ensures forall i :: 0 <= i < |Sorted(a.members)| ==> Sorted(a.members)[i].key == Sorted(b.members)[i].key
  {
    var sa, sb := Sorted(a.members), Sorted(b.members);
    SortedAscends(a.members);
    SortedAscends(b.members);
    forall i | 0 <= i < |sa| ensures HasKey(sb, sa[i].key) {
      var _, y := Partners(a, b, sa[i]);
      var j :| 0 <= j < |sb| && sb[j] == y;
    }
    SameKeysSameOrder(sa, sb);
  }

  /** Equivalent objects pair each member with one under the same key, listed among the sorted members too. */
  lemma Partners(a: Json, b: Json, m: Member) returns (x: Member, y: Member)
    requires a.Object? && Equivalent(a, b) && m in Sorted(a.members) && WellFormed(a) && WellFormed(b)
    ensures x == m && x.value < a && WellFormed(x.value)
    ensures y in b.members && y in Sorted(b.members) && WellFormed(y.value)
    ensures x.key == y.key && Equivalent(x.value, y.value)
  {
    x := m;
    var i :| 0 <= i < |a.members| && a.members[i] == m;
    assert HasPartner(a.members[i], b.members);
    var j :| 0 <= j < |b.members| && a.members[i].key == b.members[j].key && Equivalent(a.members[i].value, b.members[j].value);
    y := b.members[j];
  }

  lemma SameKeySameMember(members: seq<Member>, x: Member, y: Member)
    requires DistinctKeys(members) && x in members && y in members && x.key == y.key
    ensures x == y
  {
  }

  lemma {:induction false} SameCanonAreEquivalent(a: Json, b: Json)
    requires Canon(a) == Canon(b)
    ensures Equivalent(a, b)
    decreases a
  {
    match a
    case Array(items) =>
      assert |items| == |CanonItems(items)| == |b.items|;
      forall i | 0 <= i < |items| ensures Equivalent(items[i], b.items[i]) {
        assert Canon(items[i]) == CanonItems(items)[i] == Canon(b.items[i]);
        SameCanonAreEquivalent(items[i], b.items[i]);
      }
    case Object(members) =>
      var sa, sb := Sorted(members), Sorted(b.members);
      assert |members| == |Canon(a).members| == |b.members|;
      forall i | 0 <= i < |members| ensures HasPartner(members[i], b.members) {
        assert members[i] in members;
        var k :| 0 <= k < |sa| && sa[k] == members[i];
        CanonOfMember(a, k);
        CanonOfMember(b, k);
        SameCanonAreEquivalent(members[i].value, sb[k].value);
        var j :| 0 <= j < |b.members| && b.members[j] == sb[k];
      }
    case _ =>
  }
}

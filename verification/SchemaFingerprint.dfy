/**
 * What `load_schema_set` hashes: for every schema file in path order, its path, NUL, its canonical text, NUL. The hash
 * itself is SHA-256 over the UTF-8 of this text and is not part of this model.
 *
 * A file is listed as a member: the key is its path below the root with the components separated by NUL, the one
 * character no path component contains, and the value is its document. So a directory listing is an object, and
 * listings that differ only in enumeration order are equivalent objects.
 */
module SchemaFingerprint {
  import opened Prelude
  import opened CanonicalJson
  import opened CanonicalText

  const NUL: char := 0 as char

  datatype BinaryError = SchemaUnsupported

  datatype SchemaSet = SchemaSet(hashed: Text, documents: map<Text, Json>)

  // ----- paths --------------------------------------------------------------------------------------------

  predicate Lacks(t: Text, c: char) {
    forall i :: 0 <= i < |t| ==> t[i] != c
  }

  /** Path components joined by NUL, as they stand in a listing. */
  function Joined(components: seq<Text>): Text {
    if components == [] then []
    else if |components| == 1 then components[0]
    else components[0] + [NUL] + Joined(components[1..])
  }

  ghost predicate IsPath(components: seq<Text>) {
    components != [] && forall i :: 0 <= i < |components| ==> Lacks(components[i], NUL) && Lacks(components[i], '/')
  }

  /** The order of `PathBuf`: component by component. */
  predicate PathBefore(a: seq<Text>, b: seq<Text>) {
    if b == [] then false
    else if a == [] then true
    else Before(a[0], b[0]) || (a[0] == b[0] && PathBefore(a[1..], b[1..]))
  }

  /** Texts that continue differently compare as their first parts do. */
  lemma {:induction false} BeforeSplits(a: Text, b: Text, x: Text, y: Text)
    requires Lacks(a, NUL) && Lacks(b, NUL)
    requires x == [] || x[0] == NUL
    requires y == [] || y[0] == NUL
    ensures Before(a + x, b + y) <==> Before(a, b) || (a == b && Before(x, y))
  {
    if a == [] || b == [] {
      assert a == [] ==> a + x == x;
      assert b == [] ==> b + y == y;
    } else {
      assert (a + x)[1..] == a[1..] + x && (b + y)[1..] == b[1..] + y;
      BeforeSplits(a[1..], b[1..], x, y);
      assert a == [a[0]] + a[1..] && b == [b[0]] + b[1..];
    }
  }

  function Tail(components: seq<Text>): Text
    requires components != []
  {
    if |components| == 1 then [] else [NUL] + Joined(components[1..])
  }

  lemma TailOrder(a: seq<Text>, b: seq<Text>)
    requires a != [] && b != []
    ensures Before(Tail(a), Tail(b)) <==> |b| > 1 && (|a| == 1 || Before(Joined(a[1..]), Joined(b[1..])))
  {
    if |a| > 1 && |b| > 1 {
      assert Tail(a)[1..] == Joined(a[1..]) && Tail(b)[1..] == Joined(b[1..]);
    }
  }

  lemma JoinedParts(components: seq<Text>)
    requires components != []
    ensures Joined(components) == components[0] + Tail(components)
  {
    hide Lacks;
    if |components| == 1 {
      assert components[0] + [] == components[0];
    } else {
      assert components[0] + [NUL] + Joined(components[1..]) == components[0] + ([NUL] + Joined(components[1..]));
    }
  }

  lemma FirstComponentsDecide(a: seq<Text>, b: seq<Text>)
    requires IsPath(a) && IsPath(b)
    ensures Before(Joined(a), Joined(b)) <==>
            Before(a[0], b[0]) || (a[0] == b[0] && |b| > 1 && (|a| == 1 || Before(Joined(a[1..]), Joined(b[1..]))))
  {
    JoinedParts(a);
    JoinedParts(b);
    hide Before, Joined;
    BeforeSplits(a[0], b[0], Tail(a), Tail(b));
    TailOrder(a, b);
  }

  lemma PathStep(a: seq<Text>, b: seq<Text>)
    requires a != [] && b != []
    ensures PathBefore(a, b) <==>
            Before(a[0], b[0]) || (a[0] == b[0] && |b| > 1 && (|a| == 1 || PathBefore(a[1..], b[1..])))
  {
    hide Before;
  }

  /** Sorting listed paths as texts sorts them component by component. */
  lemma {:induction false} TextOrderIsPathOrder(a: seq<Text>, b: seq<Text>)
    requires IsPath(a) && IsPath(b)
    ensures Before(Joined(a), Joined(b)) <==> PathBefore(a, b)
  {
    FirstComponentsDecide(a, b);
    PathStep(a, b);
    hide Before, Joined, PathBefore;
    if |a| > 1 && |b| > 1 {
      TextOrderIsPathOrder(a[1..], b[1..]);
    }
  }

  /** The path as it is hashed: separators become slashes. */
  function Relative(path: Text): (r: Text)
    ensures |r| == |path|
    ensures forall i :: 0 <= i < |path| ==> r[i] == if path[i] == NUL then '/' else path[i]
  {
    if path == [] then [] else [if path[0] == NUL then '/' else path[0]] + Relative(path[1..])
  }

  lemma RelativeInjective(a: Text, b: Text)
    requires Lacks(a, '/') && Lacks(b, '/') && Relative(a) == Relative(b)
    ensures a == b
  {
    forall i | 0 <= i < |a| ensures a[i] == b[i] {
      assert Relative(a)[i] == Relative(b)[i];
    }
  }

  /** What the directory walk delivers: each file once, in any order, with parsed documents. */
  ghost predicate Listing(found: seq<Member>) {
    && WellFormed(Object(found))
    && forall i :: 0 <= i < |found| ==> Lacks(found[i].key, '/')
  }

  // ----- the hashed text ----------------------------------------------------------------------------------

  function Chunk(file: Member): Text {
    Relative(file.key) + [NUL] + Print(file.value) + [NUL]
  }

  function Chunks(files: seq<Member>): Text {
    if files == [] then [] else Chunk(files[0]) + Chunks(files[1..])
  }

  function HashInput(found: seq<Member>): Text {
    Chunks(Sorted(found))
  }

  /** Everything up to the first NUL, and what follows that NUL. */
  function TakeField(t: Text): (r: Option<Taken<Text>>)
    ensures r.Some? ==> |r.value.rest| < |t|
  {
    if t == [] then None
    else if t[0] == NUL then Some(Taken([], t[1..]))
    else
      var more := TakeField(t[1..]);
      if more.None? then None else Some(Taken([t[0]] + more.value.value, more.value.rest))
  }

  datatype Hashed = Hashed(path: Text, document: Text)

  /** The decoder of the hashed text: fields between NULs, taken in pairs. */
  function Decode(t: Text): seq<Hashed>
    decreases |t|
  {
    var path := TakeField(t);
    if path.None? then []
    else
      var document := TakeField(path.value.rest);
      if document.None? then [] else [Hashed(path.value.value, document.value.value)] + Decode(document.value.rest)
  }

  lemma {:induction false} FieldRoundTrip(field: Text, rest: Text)
    requires Lacks(field, NUL)
    ensures TakeField(field + [NUL] + rest) == Some(Taken(field, rest))
  {
    var t := field + [NUL] + rest;
    if field == [] {
      assert t[1..] == rest;
    } else {
      assert t[1..] == field[1..] + [NUL] + rest;
      FieldRoundTrip(field[1..], rest);
      assert field == [field[0]] + field[1..];
    }
  }

  lemma {:induction false} EscapeLacksNul(content: Text)
    ensures Lacks(Escape(content), NUL)
  {
    if content != [] {
      EscapeLacksNul(content[1..]);
      EscapeCharLacksNul(content[0]);
    }
  }

  lemma EscapeCharLacksNul(c: char)
    ensures Lacks(EscapeChar(c), NUL)
  {
  }

  /** Canonical text never contains NUL: strings escape it and nothing else can hold it. */
  lemma {:induction false} PlainLacksNul(v: Json)
    requires WellFormed(v)
    ensures Lacks(Plain(v), NUL)
    decreases v
  {
    match v
    case String(content) => EscapeLacksNul(content);
    case Array(items) => ItemsLackNul(items);
    case Object(members) => MembersLackNul(members);
    case _ =>
  }

  lemma {:induction false} ItemsLackNul(items: seq<Json>)
    requires forall i :: 0 <= i < |items| ==> WellFormed(items[i])
    ensures Lacks(PlainItems(items), NUL)
    decreases items
  {
    if items != [] {
      PlainLacksNul(items[0]);
      ItemsLackNul(items[1..]);
    }
  }

  lemma {:induction false} MembersLackNul(members: seq<Member>)
    requires forall i :: 0 <= i < |members| ==> WellFormed(members[i].value)
    ensures Lacks(PlainMembers(members), NUL)
    decreases members
  {
    if members != [] {
      EscapeLacksNul(members[0].key);
      PlainLacksNul(members[0].value);
      MembersLackNul(members[1..]);
    }
  }

  ghost predicate HashedAs(files: seq<Member>, fields: seq<Hashed>) {
    && |fields| == |files|
    && forall i :: 0 <= i < |files| ==> fields[i] == Hashed(Relative(files[i].key), Print(files[i].value))
  }

  lemma {:induction false} ChunksRoundTrip(files: seq<Member>)
    requires forall i :: 0 <= i < |files| ==> WellFormed(files[i].value)
    ensures HashedAs(files, Decode(Chunks(files)))
  {
    if files != [] {
      var path, document := Relative(files[0].key), Print(files[0].value);
      var rest := Chunks(files[1..]);
      CanonWellFormed(files[0].value);
      PlainLacksNul(Canon(files[0].value));
      RelativeLacksNul(files[0].key);
      FieldRoundTrip(path, document + [NUL] + rest);
      assert Chunks(files) == path + [NUL] + (document + [NUL] + rest);
      FieldRoundTrip(document, rest);
      ChunksRoundTrip(files[1..]);
    }
  }

  lemma RelativeLacksNul(path: Text)
    ensures Lacks(Relative(path), NUL)
  {
  }

  /** The hashed text decodes into exactly the listed paths and canonical documents, in path order. */
  lemma HashInputDecodes(found: seq<Member>)
    requires Listing(found)
    ensures HashedAs(Sorted(found), Decode(HashInput(found)))
  {
    forall i | 0 <= i < |found| ensures WellFormed(Sorted(found)[i].value) {
      assert Sorted(found)[i] in found;
    }
    ChunksRoundTrip(Sorted(found));
  }

  lemma {:induction false} SameChunks(a: seq<Member>, b: seq<Member>)
    requires |a| == |b|
    requires forall i :: 0 <= i < |a| ==> a[i].key == b[i].key && Print(a[i].value) == Print(b[i].value)
    ensures Chunks(a) == Chunks(b)
  {
    if a != [] {
      SameChunks(a[1..], b[1..]);
    }
  }

  /** The `k`-th sorted files of two listings with the same hashed text agree. */
  lemma SameInputSameFile(a: seq<Member>, b: seq<Member>, k: nat)
    requires Listing(a) && Listing(b) && HashInput(a) == HashInput(b) && k < |a|
    ensures |Sorted(a)| == |a| == |b| == |Sorted(b)|
    ensures Sorted(a)[k].key == Sorted(b)[k].key && Equivalent(Sorted(a)[k].value, Sorted(b)[k].value)
  {
    hide Sorted, Relative, Print, Equivalent, Decode;
    HashInputDecodes(a);
    HashInputDecodes(b);
    var x, y := Sorted(a)[k], Sorted(b)[k];
    assert x in a && y in b;
    assert Decode(HashInput(a))[k] == Hashed(Relative(x.key), Print(x.value));
    assert Decode(HashInput(b))[k] == Hashed(Relative(y.key), Print(y.value));
    RelativeInjective(x.key, y.key);
    SameTextExactlyWhenEquivalent(x.value, y.value);
  }

  lemma SameInputSameFiles(a: seq<Member>, b: seq<Member>)
    requires Listing(a) && Listing(b) && HashInput(a) == HashInput(b)
    ensures Equivalent(Object(a), Object(b))
  {
    hide Sorted, HashInput, Listing;
    HashInputDecodes(a);
    HashInputDecodes(b);
    forall i | 0 <= i < |a| ensures HasPartner(a[i], b) {
      assert a[i] in Sorted(a);
      var k :| 0 <= k < |a| && Sorted(a)[k] == a[i];
      SameInputSameFile(a, b, k);
      assert Sorted(b)[k] in b;
      var j :| 0 <= j < |b| && b[j] == Sorted(b)[k];
      assert a[i].key == b[j].key && Equivalent(a[i].value, b[j].value);
    }
    assert |a| == |b|;
    assert Object(a).members == a && Object(b).members == b;
  }

  lemma SameFilesSameInput(a: seq<Member>, b: seq<Member>)
    requires Listing(a) && Listing(b) && Equivalent(Object(a), Object(b))
    ensures HashInput(a) == HashInput(b)
  {
    SortedKeysAgree(Object(a), Object(b));
    var sa, sb := Sorted(a), Sorted(b);
    forall i | 0 <= i < |sa| ensures Print(sa[i].value) == Print(sb[i].value) {
      var x, y := Partners(Object(a), Object(b), sa[i]);
      SameKeySameMember(b, y, sb[i]);
      SameTextExactlyWhenEquivalent(x.value, y.value);
    }
    SameChunks(sa, sb);
  }

  /**
   * Two listings hash the same text exactly when they hold the same paths with documents that agree up to member
   * order. In particular the order in which a directory is enumerated does not matter.
   */
  lemma SameInputExactlyWhenSameFiles(a: seq<Member>, b: seq<Member>)
    requires Listing(a) && Listing(b)
    ensures HashInput(a) == HashInput(b) <==> Equivalent(Object(a), Object(b))
  {
    if HashInput(a) == HashInput(b) {
      SameInputSameFiles(a, b);
    }
    if Equivalent(Object(a), Object(b)) {
      SameFilesSameInput(a, b);
    }
  }

  // ----- loading ------------------------------------------------------------------------------------------

  lemma {:induction false} ChunksAppend(files: seq<Member>, last: Member)
    ensures Chunks(files + [last]) == Chunks(files) + Chunk(last)
  {
    if files == [] {
      assert files + [last] == [last];
      assert [last][1..] == [];
    } else {
      assert (files + [last])[1..] == files[1..] + [last];
      ChunksAppend(files[1..], last);
    }
  }

  ghost predicate Keeps(documents: map<Text, Json>, file: Member) {
    Relative(file.key) in documents && documents[Relative(file.key)] == file.value
  }

  ghost predicate Names(files: seq<Member>, n: nat, path: Text)
    requires n <= |files|
  {
    exists i :: 0 <= i < n && Relative(files[i].key) == path
  }

  /** The documents of the first `n` files, by hashed path, and nothing else. */
  ghost predicate Documents(documents: map<Text, Json>, files: seq<Member>, n: nat)
    requires n <= |files|
  {
    && (forall i :: 0 <= i < n ==> Keeps(documents, files[i]))
    && (forall path :: path in documents ==> Names(files, n, path))
  }

  /** An empty set is refused; otherwise the duplicate-path branch is never taken and every document is kept. */
  method LoadSchemaSet(found: seq<Member>) returns (r: Result<SchemaSet, BinaryError>)
    requires Listing(found)
    ensures r.Ok? <==> found != []
    ensures r.Ok? ==> r.value.hashed == HashInput(found)
    ensures r.Ok? ==> Documents(r.value.documents, found, |found|)
  {
    hide Sorted, Relative, Listing;
    var files := Sorted(found);
    if files == [] {
      return Err(SchemaUnsupported);
    }
    var hashed: Text := [];
    var documents: map<Text, Json> := map[];
    for index := 0 to |files|
      invariant hashed == Chunks(files[..index])
      invariant Documents(documents, files, index)
    {
      var file := files[index];
      var relative := Relative(file.key);
      ghost var before := hashed;
      hashed := hashed + relative + [NUL];
      hashed := WriteCanonicalJson(file.value, hashed);
      hashed := hashed + [NUL];
      ChunksGrow(files, index, before, hashed);
      NewPath(found, index, documents);
      if relative in documents {
        return Err(SchemaUnsupported);
      }
      DocumentsGrow(documents, files, index);
      documents := documents[relative := file.value];
    }
    assert files[..|files|] == files;
    SameDocuments(found, documents);
    r := Ok(SchemaSet(hashed, documents));
  }

  lemma ChunksGrow(files: seq<Member>, index: nat, before: Text, after: Text)
    requires index < |files| && before == Chunks(files[..index])
    requires after == before + Relative(files[index].key) + [NUL] + Print(files[index].value) + [NUL]
    ensures after == Chunks(files[..index + 1])
  {
    hide Relative, Print;
    ChunksAppend(files[..index], files[index]);
    assert files[..index + 1] == files[..index] + [files[index]];
    assert after == before + Chunk(files[index]);
  }

  lemma DocumentsGrow(documents: map<Text, Json>, files: seq<Member>, index: nat)
    requires index < |files| && Documents(documents, files, index) && Relative(files[index].key) !in documents
    ensures Documents(documents[Relative(files[index].key) := files[index].value], files, index + 1)
  {
    hide Relative;
    var more := documents[Relative(files[index].key) := files[index].value];
    forall i | 0 <= i < index + 1 ensures Keeps(more, files[i]) {
      assert i < index ==> Keeps(documents, files[i]);
    }
    forall path | path in more ensures Names(files, index + 1, path) {
      if path in documents {
        assert Names(files, index, path);
        var i :| 0 <= i < index && Relative(files[i].key) == path;
      } else {
        assert Relative(files[index].key) == path;
      }
    }
  }

  /** Distinct paths hash as distinct texts. */
  lemma NewPath(found: seq<Member>, index: nat, documents: map<Text, Json>)
    requires Listing(found) && index < |Sorted(found)|
    requires Documents(documents, Sorted(found), index)
    ensures Relative(Sorted(found)[index].key) !in documents
  {
    hide Sorted, Relative;
    var files := Sorted(found);
    var path := Relative(files[index].key);
    if path in documents {
      assert Names(files, index, path);
      var i :| 0 <= i < index && Relative(files[i].key) == path;
      assert files[i] in found && files[index] in found;
      SortedAscends(found);
      RelativeInjective(files[i].key, files[index].key);
      BeforeIrreflexive(files[i].key);
    }
  }

  lemma SortedKeeps(found: seq<Member>, documents: map<Text, Json>, i: nat)
    requires Documents(documents, Sorted(found), |found|) && i < |found|
    ensures Keeps(documents, found[i])
  {
    hide Sorted, Names, Keeps;
    assert found[i] in Sorted(found);
    var k :| 0 <= k < |Sorted(found)| && Sorted(found)[k] == found[i];
    assert Keeps(documents, Sorted(found)[k]);
  }

  lemma SameNames(found: seq<Member>, files: seq<Member>, path: Text)
    requires |files| == |found| && (forall file :: file in files ==> file in found)
    requires Names(files, |found|, path)
    ensures Names(found, |found|, path)
  {
    hide Relative;
    var k :| 0 <= k < |found| && Relative(files[k].key) == path;
    var file := files[k];
    assert file in found;
    var i :| 0 <= i < |found| && found[i] == file;
    assert Relative(found[i].key) == path;
  }

  lemma SameDocuments(found: seq<Member>, documents: map<Text, Json>)
    requires Documents(documents, Sorted(found), |found|)
    ensures Documents(documents, found, |found|)
  {
    hide Sorted, Names, Keeps;
    forall i | 0 <= i < |found| ensures Keeps(documents, found[i]) {
      SortedKeeps(found, documents, i);
    }
    forall path | path in documents ensures Names(found, |found|, path) {
      SameNames(found, Sorted(found), path);
    }
  }
}

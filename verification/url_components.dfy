/**
 * URL-building helpers: optional query items, query replacement and
 * extension, path extensions, directory/file traversal, and URLRequest
 * construction with case-insensitive header fields.
 *
 * A URL is abstracted to an opaque origin (scheme, host, port), a list of
 * path components (each remembering whether it was appended as a directory
 * and which path extensions it carries) and an optional list of query items.
 * Foundation's own string-level path handling is not part of this model.
 */
module UrlComponents {
  import opened Wrappers

  datatype QueryItem = QueryItem(name: string, value: Option<string>)

  datatype PathComponent = PathComponent(name: string, isDirectory: bool, extensions: seq<string>)

  datatype Url = Url(origin: string, path: seq<PathComponent>, query: Option<seq<QueryItem>>)

  // ---------------------------------------------------------------------
  // Integer descriptions (the `description` of a LosslessStringConvertible Int)
  // ---------------------------------------------------------------------

  function DigitChar(d: nat): (c: char)
    requires d < 10
    ensures '0' <= c <= '9' && c as int - '0' as int == d
  {
    ('0' as int + d) as char
  }

  predicate AllDigits(s: string) {
    forall i :: 0 <= i < |s| ==> '0' <= s[i] <= '9'
  }

  /** Decimal digits of a natural number, most significant first, no leading zeros. */
  function NatDescription(n: nat): (s: string)
    ensures |s| >= 1 && AllDigits(s)
    ensures |s| > 1 ==> s[0] != '0'
    decreases n
  {
    if n < 10 then [DigitChar(n)] else NatDescription(n / 10) + [DigitChar(n % 10)]
  }

  /** Swift's `Int.description`: decimal, with a leading '-' for negative numbers. */
  function IntDescription(n: int): string {
    if n < 0 then "-" + NatDescription(-n) else NatDescription(n)
  }

  function DigitsValue(s: string): nat
    requires AllDigits(s)
    decreases |s|
  {
    if s == [] then 0 else DigitsValue(s[..|s| - 1]) * 10 + (s[|s| - 1] as int - '0' as int)
  }

  /**
   * `Int.init?(_ description:)`, the other half of the lossless conversion:
   * decimal digits after an optional '-' or '+' sign. The bound of a 64-bit
   * Int is not part of this model.
   */
  function ParseInt(s: string): Option<int> {
    if |s| > 1 && s[0] == '-' && AllDigits(s[1..]) then Some(0 - DigitsValue(s[1..]) as int)
    else if |s| > 1 && s[0] == '+' && AllDigits(s[1..]) then Some(DigitsValue(s[1..]))
    else if |s| > 0 && AllDigits(s) then Some(DigitsValue(s))
    else None
  }

  lemma {:induction false} NatDescriptionValue(n: nat)
    ensures DigitsValue(NatDescription(n)) == n
    decreases n
  {
    if n >= 10 {
      var prefix := NatDescription(n / 10);
      var s := prefix + [DigitChar(n % 10)];
      assert s[..|s| - 1] == prefix;
      NatDescriptionValue(n / 10);
    }
  }

  /** The description of an Int converts back to the same Int. */
  lemma IntDescriptionRoundTrip(n: int)
    ensures ParseInt(IntDescription(n)) == Some(n)
  {
    if n < 0 {
      var d := NatDescription(-n);
      var s := "-" + d;
      assert IntDescription(n) == s;
      assert s[0] == '-' && s[1..] == d;
      NatDescriptionValue(-n);
      assert DigitsValue(d) == -n;
      assert ParseInt(s) == Some(0 - DigitsValue(d) as int);
    } else {
      var d := NatDescription(n);
      assert IntDescription(n) == d;
      assert d[0] != '-';
      NatDescriptionValue(n);
      assert ParseInt(d) == Some(DigitsValue(d) as int);
    }
  }

  // ---------------------------------------------------------------------
  // Query items
  // ---------------------------------------------------------------------

  /**
   * `URLQueryItem.init?(name:requiredValue:)`: no item when the value is
   * missing, otherwise an item whose value is the value's description.
   */
  function RequiredQueryItem<V>(name: string, requiredValue: Option<V>, describe: V -> string): (item: Option<QueryItem>)
    ensures item.None? <==> requiredValue.None?
    ensures item.Some? ==> item.value.name == name && item.value.value == Some(describe(requiredValue.value))
  {
    match requiredValue
    case None => None
    case Some(v) => Some(QueryItem(name, Some(describe(v))))
  }

  /** `compactMap { $0 }`: the present items, in their original order. */
  function Compacted(items: seq<Option<QueryItem>>): (r: seq<QueryItem>)
    ensures |r| <= |items|
    ensures forall q :: q in r <==> Some(q) in items
    decreases |items|
  {
    if items == [] then []
    else (if items[0].Some? then [items[0].value] else []) + Compacted(items[1..])
  }

  /** The present item of an optional one, as a list of at most one. */
  function Present(item: Option<QueryItem>): seq<QueryItem> {
    if item.Some? then [item.value] else []
  }

  /** Compacting a list is concatenating the present item of each entry, in order. */
  lemma CompactedUnfold(item: Option<QueryItem>, rest: seq<Option<QueryItem>>)
    ensures Compacted([item] + rest) == Present(item) + Compacted(rest)
  {
    assert ([item] + rest)[1..] == rest;
  }

  lemma {:induction false} CompactedAppend(a: seq<Option<QueryItem>>, b: seq<Option<QueryItem>>)
    ensures Compacted(a + b) == Compacted(a) + Compacted(b)
    decreases |a|
  {
    if a == [] {
      assert a + b == b;
    } else {
      assert (a + b)[0] == a[0];
      assert (a + b)[1..] == a[1..] + b;
      CompactedAppend(a[1..], b);
    }
  }

  /** An item list with nothing missing is kept as it is. */
  lemma {:induction false} CompactedAllPresent(items: seq<Option<QueryItem>>)
    requires forall i :: 0 <= i < |items| ==> items[i].Some?
    ensures |Compacted(items)| == |items|
    ensures forall i :: 0 <= i < |items| ==> Compacted(items)[i] == items[i].value
    decreases |items|
  {
    if items != [] {
      CompactedAllPresent(items[1..]);
    }
  }

  /** `URLComponents.setQueryItems(_:)`: the query becomes the present items. */
  function SetQueryItems(c: Url, items: seq<Option<QueryItem>>): Url {
    c.(query := Some(Compacted(items)))
  }

  /** `URLComponents.addQueryItems(_:)`: the present items follow the existing ones (none if absent). */
  function AddQueryItems(c: Url, items: seq<Option<QueryItem>>): Url {
    c.(query := Some(c.query.GetOr([]) + Compacted(items)))
  }

  /** `URL.withQuery(items:)`: any existing query is replaced, as by `setQueryItems`. */
  function WithQuery(u: Url, items: seq<Option<QueryItem>>): Url {
    SetQueryItems(u, items)
  }

  /** Setting replaces the query and leaves origin and path alone. */
  lemma SetQueryItemsReplaces(c: Url, items: seq<Option<QueryItem>>)
    ensures var r := SetQueryItems(c, items);
      r.origin == c.origin && r.path == c.path && r.query.Some?
      && (forall q :: q in r.query.value <==> Some(q) in items)
  {
  }

  /** Adding to a URL without a query is the same as setting. */
  lemma AddToAbsentQueryIsSet(c: Url, items: seq<Option<QueryItem>>)
    requires c.query.None?
    ensures AddQueryItems(c, items) == SetQueryItems(c, items)
  {
    assert [] + Compacted(items) == Compacted(items);
  }

  /** Adding after setting is setting the concatenated list. */
  lemma AddAfterSet(c: Url, first: seq<Option<QueryItem>>, second: seq<Option<QueryItem>>)
    ensures AddQueryItems(SetQueryItems(c, first), second) == SetQueryItems(c, first + second)
  {
    CompactedAppend(first, second);
  }

  /** Adding keeps every existing item in front and appends the present new items in order. */
  lemma AddQueryItemsKeepsExisting(c: Url, items: seq<Option<QueryItem>>)
    ensures var r := AddQueryItems(c, items);
      r.origin == c.origin && r.path == c.path && r.query.Some?
      && r.query.value[..|c.query.GetOr([])|] == c.query.GetOr([])
      && r.query.value[|c.query.GetOr([])|..] == Compacted(items)
  {
  }

  /** The result of `withQuery` does not depend on the query it replaced. */
  lemma WithQueryIgnoresOldQuery(u: Url, v: Url, items: seq<Option<QueryItem>>)
    requires u.origin == v.origin && u.path == v.path
    ensures WithQuery(u, items) == WithQuery(v, items)
    ensures WithQuery(WithQuery(u, items), items) == WithQuery(u, items)
  {
  }

  // ---------------------------------------------------------------------
  // Paths and path extensions
  // ---------------------------------------------------------------------

  function Directories(names: seq<string>): (r: seq<PathComponent>)
    ensures |r| == |names|
  {
    seq(|names|, i requires 0 <= i < |names| => PathComponent(names[i], true, []))
  }

  function FileComponent(name: string): PathComponent {
    PathComponent(name, false, [])
  }

  /** `appendingPathComponent(_:isDirectory: true)`. */
  function Descending(u: Url, subdirectory: string): Url {
    u.(path := u.path + [PathComponent(subdirectory, true, [])])
  }

  /** `appendingPathComponent(_:isDirectory: false)`. */
  function Identifying(u: Url, filename: string): Url {
    u.(path := u.path + [FileComponent(filename)])
  }

  /** The URL whose last path component carries `extensions` instead of its own. */
  function WithLastExtensions(u: Url, extensions: seq<string>): Url
    requires u.path != []
  {
    var last := u.path[|u.path| - 1];
    u.(path := u.path[..|u.path| - 1] + [last.(extensions := extensions)])
  }

  function LastExtensions(u: Url): seq<string>
    requires u.path != []
  {
    u.path[|u.path| - 1].extensions
  }

  /** `appendingPathExtension(_:)`: a URL without a path has nothing to extend. */
  function AppendingPathExtension(u: Url, ext: string): Url {
    if u.path == [] then u else WithLastExtensions(u, LastExtensions(u) + [ext])
  }

  /** The position of the last '.' of `s` at or after `lo` and before `n`, if there is one. */
  function LastDot(s: string, lo: nat, n: nat): (k: Option<nat>)
    requires n <= |s|
    ensures k.Some? ==> lo <= k.value < n && s[k.value] == '.' && forall i :: k.value < i < n ==> s[i] != '.'
    ensures k.None? ==> forall i :: lo <= i < n ==> s[i] != '.'
    decreases n
  {
    if n <= lo then None
    else if s[n - 1] == '.' then Some(n - 1)
    else LastDot(s, lo, n - 1)
  }

  /**
   * A component name without the extension it spells: the name up to its
   * last '.', unless that dot opens the name (a hidden file such as
   * `.gitignore` has no extension) or the name is `..`.
   */
  function Stem(name: string): (stem: string)
    ensures stem <= name
    ensures stem == name <==> name == ".." || forall i :: 0 < i < |name| ==> name[i] != '.'
  {
    if name == ".." then name
    else match LastDot(name, 1, |name|)
      case Some(k) => name[..k]
      case None => name
  }

  /**
   * The appended extensions after deleting the last extension they spell:
   * the part of the last one after its own last '.', or the whole last one
   * when it has no dot.
   */
  function ExtensionsDeleted(extensions: seq<string>): (r: seq<string>)
    requires extensions != []
    ensures var n := |extensions| - 1;
      var last := extensions[n];
      n <= |r| <= n + 1 && r[..n] == extensions[..n] &&
      ('.' !in last ==> r == extensions[..n]) &&
      ('.' in last ==> |r| == n + 1 && r[n] < last && r[n] != last)
  {
    var n := |extensions| - 1;
    match LastDot(extensions[n], 0, |extensions[n]|)
    case Some(k) => extensions[..n] + [extensions[n][..k]]
    case None => extensions[..n]
  }

  /** The URL whose last path component has the name `name` instead of its own. */
  function WithLastName(u: Url, name: string): Url
    requires u.path != []
  {
    var last := u.path[|u.path| - 1];
    u.(path := u.path[..|u.path| - 1] + [last.(name := name)])
  }

  /**
   * `deletingPathExtension()`: drops the last extension of the last
   * component, which is the end of its last appended extension when it has
   * one, and otherwise the extension its name spells.
   */
  function DeletingPathExtension(u: Url): Url {
    if u.path == [] then u
    else if LastExtensions(u) != [] then WithLastExtensions(u, ExtensionsDeleted(LastExtensions(u)))
    else WithLastName(u, Stem(u.path[|u.path| - 1].name))
  }

  /** `typed(as:)`: `reduce` of `appendingPathExtension` over the specifiers. */
  function Typed(u: Url, specifiers: seq<string>): (r: Url)
    ensures r.origin == u.origin && r.query == u.query && |r.path| == |u.path|
    decreases |specifiers|
  {
    if specifiers == [] then u else Typed(AppendingPathExtension(u, specifiers[0]), specifiers[1..])
  }

  /** `retyped(as:)`. */
  function Retyped(u: Url, specifiers: seq<string>): Url {
    Typed(DeletingPathExtension(u), specifiers)
  }

  /** `identifying(_:as:)`. */
  function IdentifyingAs(u: Url, filename: string, specifiers: seq<string>): Url {
    Typed(Identifying(u, filename), specifiers)
  }

  /** `traversing(_:)`: `reduce` of `descending(into:)` over the subdirectories. */
  function Traversing(u: Url, subdirs: seq<string>): (r: Url)
    ensures r.origin == u.origin && r.query == u.query && |r.path| == |u.path| + |subdirs|
    decreases |subdirs|
  {
    if subdirs == [] then u else Traversing(Descending(u, subdirs[0]), subdirs[1..])
  }

  /** `traversing(_:for:)`. */
  function TraversingFor(u: Url, subdirs: seq<string>, filename: string): Url {
    Identifying(Traversing(u, subdirs), filename)
  }

  /** `traversing(_:for:as:)`. */
  function TraversingForAs(u: Url, subdirs: seq<string>, filename: string, specifiers: seq<string>): Url {
    IdentifyingAs(Traversing(u, subdirs), filename, specifiers)
  }

  /** Typing appends the extensions, in order, to the last path component only. */
  lemma {:induction false} TypedAppendsExtensions(u: Url, specifiers: seq<string>)
    ensures u.path == [] ==> Typed(u, specifiers) == u
    ensures u.path != [] ==> Typed(u, specifiers) == WithLastExtensions(u, LastExtensions(u) + specifiers)
    decreases |specifiers|
  {
    if specifiers != [] {
      var next := AppendingPathExtension(u, specifiers[0]);
      TypedAppendsExtensions(next, specifiers[1..]);
      if u.path != [] {
        assert LastExtensions(next) == LastExtensions(u) + [specifiers[0]];
        assert LastExtensions(u) + [specifiers[0]] + specifiers[1..] == LastExtensions(u) + specifiers;
        assert next.path[..|next.path| - 1] == u.path[..|u.path| - 1];
      }
    } else if u.path != [] {
      assert LastExtensions(u) + specifiers == LastExtensions(u);
      assert u.path[..|u.path| - 1] + [u.path[|u.path| - 1]] == u.path;
    }
  }

  /** Typing with a concatenation is typing twice. */
  lemma {:induction false} TypedConcat(u: Url, first: seq<string>, second: seq<string>)
    ensures Typed(u, first + second) == Typed(Typed(u, first), second)
    decreases |first|
  {
    if first != [] {
      assert (first + second)[1..] == first[1..] + second;
      TypedConcat(AppendingPathExtension(u, first[0]), first[1..], second);
    } else {
      assert first + second == second;
    }
  }

  /**
   * Retyping removes the last extension of the last component, wherever it
   * is spelled, and then appends the new ones.
   */
  lemma RetypedReplacesLastExtension(u: Url, specifiers: seq<string>)
    ensures u.path == [] ==> Retyped(u, specifiers) == u
    ensures u.path != [] && LastExtensions(u) != [] ==>
      Retyped(u, specifiers) == WithLastExtensions(u, ExtensionsDeleted(LastExtensions(u)) + specifiers)
    ensures u.path != [] && LastExtensions(u) == [] ==>
      var last := u.path[|u.path| - 1];
      Retyped(u, specifiers) == u.(path := u.path[..|u.path| - 1] + [last.(name := Stem(last.name), extensions := specifiers)])
  {
    var d := DeletingPathExtension(u);
    TypedAppendsExtensions(d, specifiers);
    if u.path != [] {
      assert d.path[..|d.path| - 1] == u.path[..|u.path| - 1];
      if LastExtensions(u) == [] {
        assert LastExtensions(d) + specifiers == specifiers;
      }
    }
  }

  /** Deleting an extension just appended, one without a dot of its own, gives back the URL. */
  lemma DeletingUndoesAppending(u: Url, ext: string)
    requires u.path != [] && '.' !in ext
    ensures DeletingPathExtension(AppendingPathExtension(u, ext)) == u
  {
    var a := AppendingPathExtension(u, ext);
    var extended := LastExtensions(u) + [ext];
    assert LastExtensions(a) == extended;
    assert ExtensionsDeleted(extended) == LastExtensions(u);
    assert a.path[..|a.path| - 1] == u.path[..|u.path| - 1];
    assert u.path[..|u.path| - 1] + [u.path[|u.path| - 1]] == u.path;
  }

  /** A name `stem.ext` spells the extension `ext`: its stem is `stem`. */
  lemma StemDropsSpelledExtension(stem: string, ext: string)
    requires stem != [] && '.' !in ext && stem + "." + ext != ".."
    ensures Stem(stem + "." + ext) == stem
  {
    var name := stem + "." + ext;
    var n := |stem|;
    assert name[n] == '.';
    assert forall i :: n < i < |name| ==> name[i] == ext[i - n - 1];
    assert name[..n] == stem;
  }

  /** Retyping a file named `stem.ext` replaces the spelled extension: the file is `stem` typed as the specifiers. */
  lemma RetypingSpelledExtension(u: Url, stem: string, ext: string, specifiers: seq<string>)
    requires stem != [] && '.' !in ext && stem + "." + ext != ".."
    ensures Retyped(Identifying(u, stem + "." + ext), specifiers) == IdentifyingAs(u, stem, specifiers)
  {
    var f := Identifying(u, stem + "." + ext);
    RetypedReplacesLastExtension(f, specifiers);
    StemDropsSpelledExtension(stem, ext);
    TypedAppendsExtensions(Identifying(u, stem), specifiers);
    assert f.path[..|f.path| - 1] == u.path;
    assert Identifying(u, stem).path[..|u.path|] == u.path;
  }

  /** Traversing appends one directory component per subdirectory, in order, and touches nothing else. */
  lemma {:induction false} TraversingAppendsDirectories(u: Url, subdirs: seq<string>)
    ensures Traversing(u, subdirs) == u.(path := u.path + Directories(subdirs))
    decreases |subdirs|
  {
    if subdirs == [] {
      assert u.path + Directories(subdirs) == u.path;
    } else {
      TraversingAppendsDirectories(Descending(u, subdirs[0]), subdirs[1..]);
      assert Directories(subdirs) == [PathComponent(subdirs[0], true, [])] + Directories(subdirs[1..]);
    }
  }

  /** Traversing for a file appends the directories and then one file component. */
  lemma TraversingForPath(u: Url, subdirs: seq<string>, filename: string)
    ensures TraversingFor(u, subdirs, filename) == u.(path := u.path + Directories(subdirs) + [FileComponent(filename)])
  {
    TraversingAppendsDirectories(u, subdirs);
  }

  /** Traversing for a typed file: the extensions land on the file component. */
  lemma TraversingForAsPath(u: Url, subdirs: seq<string>, filename: string, specifiers: seq<string>)
    ensures TraversingForAs(u, subdirs, filename, specifiers)
      == u.(path := u.path + Directories(subdirs) + [PathComponent(filename, false, specifiers)])
  {
    TraversingAppendsDirectories(u, subdirs);
    var f := Identifying(Traversing(u, subdirs), filename);
    TypedAppendsExtensions(f, specifiers);
    assert f.path == u.path + Directories(subdirs) + [FileComponent(filename)];
    assert f.path[..|f.path| - 1] == u.path + Directories(subdirs);
    assert LastExtensions(f) == [];
    assert [] + specifiers == specifiers;
  }

  // ---------------------------------------------------------------------
  // Mutating variants (`type`, `retype`, `traverse`, `identify`): forEach loops
  // ---------------------------------------------------------------------

  /** `type(as:)`: appends each extension in turn. */
  method Type(u: Url, specifiers: seq<string>) returns (r: Url)
    ensures r == Typed(u, specifiers)
  {
    r := u;
    for i := 0 to |specifiers|
      invariant r == Typed(u, specifiers[..i])
    {
      TypedConcat(u, specifiers[..i], [specifiers[i]]);
      assert specifiers[..i + 1] == specifiers[..i] + [specifiers[i]];
      r := AppendingPathExtension(r, specifiers[i]);
    }
    assert specifiers[..|specifiers|] == specifiers;
  }

  /** `retype(as:)`: deletes one extension, then appends each new one. */
  method Retype(u: Url, specifiers: seq<string>) returns (r: Url)
    ensures r == Retyped(u, specifiers)
  {
    r := DeletingPathExtension(u);
    r := Type(r, specifiers);
  }

  /** `traverse(_:)`: descends into each subdirectory in turn. */
  method Traverse(u: Url, subdirs: seq<string>) returns (r: Url)
    ensures r == Traversing(u, subdirs)
  {
    r := u;
    for i := 0 to |subdirs|
      invariant r == u.(path := u.path + Directories(subdirs[..i]))
    {
      assert Directories(subdirs[..i + 1]) == Directories(subdirs[..i]) + [PathComponent(subdirs[i], true, [])];
      r := Descending(r, subdirs[i]);
    }
    assert subdirs[..|subdirs|] == subdirs;
    TraversingAppendsDirectories(u, subdirs);
  }

  /** `traverse(_:for:)`. */
  method TraverseFor(u: Url, subdirs: seq<string>, filename: string) returns (r: Url)
    ensures r == TraversingFor(u, subdirs, filename)
  {
    r := Traverse(u, subdirs);
    r := Identifying(r, filename);
  }

  /** `identify(_:as:)`: appends a file component, then each extension in turn. */
  method Identify(u: Url, filename: string, specifiers: seq<string>) returns (r: Url)
    ensures r == IdentifyingAs(u, filename, specifiers)
  {
    r := Identifying(u, filename);
    r := Type(r, specifiers);
  }

  /** `traverse(_:for:as:)`. */
  method TraverseForAs(u: Url, subdirs: seq<string>, filename: string, specifiers: seq<string>) returns (r: Url)
    ensures r == TraversingForAs(u, subdirs, filename, specifiers)
  {
    r := Traverse(u, subdirs);
    r := Identify(r, filename, specifiers);
  }

  // ---------------------------------------------------------------------
  // Requests and header fields
  // ---------------------------------------------------------------------

  function LowerAscii(c: char): char {
    if 'A' <= c <= 'Z' then (c as int + 32) as char else c
  }

  /** Header field names are compared without regard to ASCII case. */
  function FoldedName(name: string): (key: string)
    ensures |key| == |name|
  {
    seq(|name|, i requires 0 <= i < |name| => LowerAscii(name[i]))
  }

  lemma FoldedNameIdempotent(name: string)
    ensures FoldedName(FoldedName(name)) == FoldedName(name)
  {
  }

  /** Two characters are the same letter in either ASCII case, or simply equal. */
  predicate SameIgnoringCase(c: char, d: char) {
    c == d || ('A' <= c <= 'Z' && d as int == c as int + 32) || ('A' <= d <= 'Z' && c as int == d as int + 32)
  }

  /** Names fold alike exactly when they differ at most in the ASCII case of their letters. */
  lemma FoldedNameCaseInsensitive(a: string, b: string)
    ensures FoldedName(a) == FoldedName(b) <==>
      |a| == |b| && forall i :: 0 <= i < |a| ==> SameIgnoringCase(a[i], b[i])
  {
    if |a| == |b| && forall i :: 0 <= i < |a| ==> SameIgnoringCase(a[i], b[i]) {
      assert forall i :: 0 <= i < |a| ==> FoldedName(a)[i] == FoldedName(b)[i];
    }
    if FoldedName(a) == FoldedName(b) {
      forall i | 0 <= i < |a|
        ensures SameIgnoringCase(a[i], b[i])
      {
        assert LowerAscii(a[i]) == FoldedName(a)[i] == FoldedName(b)[i] == LowerAscii(b[i]);
      }
    }
  }

  /** A URLRequest: its URL, header fields keyed by folded name, optional method and optional body. */
  datatype Request<B> = Request(url: Url, headers: map<string, string>, httpMethod: Option<string>, body: Option<B>)

  /** `value(forHTTPHeaderField:)`. */
  function HeaderValue<B>(r: Request<B>, name: string): Option<string> {
    var key := FoldedName(name);
    if key in r.headers then Some(r.headers[key]) else None
  }

  /** `setValue(_:forHTTPHeaderField:)`; a missing value removes the field. */
  function SetHeader<B>(r: Request<B>, name: string, value: Option<string>): (s: Request<B>)
    ensures HeaderValue(s, name) == value
    ensures forall other {:trigger HeaderValue(s, other)} :: FoldedName(other) != FoldedName(name) ==> HeaderValue(s, other) == HeaderValue(r, other)
    ensures s.url == r.url && s.httpMethod == r.httpMethod && s.body == r.body
  {
    var key := FoldedName(name);
    match value
    case Some(v) => r.(headers := r.headers[key := v])
    case None => r.(headers := r.headers - {key})
  }

  /** Setting a header field twice keeps only the second setting. */
  lemma SetHeaderTwice<B>(r: Request<B>, name: string, first: Option<string>, second: Option<string>)
    ensures SetHeader(SetHeader(r, name, first), name, second) == SetHeader(r, name, second)
  {
    var key := FoldedName(name);
    var once := SetHeader(r, name, first);
    if second.None? {
      assert once.headers - {key} == r.headers - {key};
    } else {
      assert once.headers[key := second.value] == r.headers[key := second.value];
    }
  }

  /** An unset method means GET. */
  function EffectiveMethod<B>(r: Request<B>): string {
    r.httpMethod.GetOr("GET")
  }

  /** A request for `url` with no header fields, no body and the given method. */
  function PlainRequest<B>(url: Url, httpMethod: Option<string>): Request<B> {
    Request(url, map[], httpMethod, None)
  }

  /**
   * What `URLRequest.init(url:additionalHTTPHeaders:method:)` may produce:
   * every given name is set, every field set comes from one of the given
   * names (dictionary order decides between names that differ only in case),
   * and the method is exactly the one passed.
   */
  ghost predicate InitializedWith<B>(r: Request<B>, url: Url, additionalHTTPHeaders: map<string, string>, httpMethod: Option<string>) {
    && r.url == url && r.httpMethod == httpMethod && r.body == None
    && (forall name :: name in additionalHTTPHeaders ==> FoldedName(name) in r.headers)
    && (forall key :: key in r.headers ==>
          exists name :: name in additionalHTTPHeaders && FoldedName(name) == key && r.headers[key] == additionalHTTPHeaders[name])
  }

  /** `URLRequest.init(url:additionalHTTPHeaders:method:)`: one `setValue` per dictionary entry. */
  method NewRequest<B>(url: Url, additionalHTTPHeaders: map<string, string>, httpMethod: Option<string>) returns (r: Request<B>)
    ensures InitializedWith(r, url, additionalHTTPHeaders, httpMethod)
  {
    r := Request(url, map[], None, None);
    var pending := additionalHTTPHeaders.Keys;
    while pending != {}
      invariant pending <= additionalHTTPHeaders.Keys
      invariant r.url == url && r.httpMethod == None && r.body == None
      invariant forall name :: name in additionalHTTPHeaders && name !in pending ==> FoldedName(name) in r.headers
      invariant forall key :: key in r.headers ==>
        exists name :: name in additionalHTTPHeaders && name !in pending && FoldedName(name) == key && r.headers[key] == additionalHTTPHeaders[name]
      decreases pending
    {
      var name :| name in pending;
      r := SetHeader(r, name, Some(additionalHTTPHeaders[name]));
      pending := pending - {name};
    }
    r := r.(httpMethod := httpMethod);
  }

  /** A field whose name no other given name folds to carries exactly its given value. */
  lemma InitializedHeaderValue<B>(r: Request<B>, url: Url, additionalHTTPHeaders: map<string, string>, httpMethod: Option<string>, name: string)
    requires InitializedWith(r, url, additionalHTTPHeaders, httpMethod)
    requires name in additionalHTTPHeaders
    requires forall other :: other in additionalHTTPHeaders && FoldedName(other) == FoldedName(name) ==> other == name
    ensures HeaderValue(r, name) == Some(additionalHTTPHeaders[name])
  {
  }

  /** With no additional header fields, initialization yields exactly the plain request. */
  lemma InitializedWithoutHeaders<B>(r: Request<B>, url: Url, httpMethod: Option<string>)
    ensures InitializedWith(r, url, map[], httpMethod) <==> r == PlainRequest(url, httpMethod)
  {
  }
}

/** The catalog code generator: `read_from_yml` and `get_err_msg`
    (src/lib.rs:155-232), over an already parsed YAML tree. */
module Catalog {
  import opened Wrappers
  import opened Text
  import opened Panic

  /** A parsed YAML node. `Other` stands for every node that is neither a
      string, an array nor a mapping (numbers, booleans, null, aliases) and for
      the `BadValue` that indexing returns for a missing key. A mapping keeps
      its pairs in document order. */
  datatype Yaml = Str(s: string) | Arr(items: seq<Yaml>) | Hash(entries: seq<(Yaml, Yaml)>) | Other

  /** The value of the first pair whose key is `key`, or `Other` when there is none. */
  function Find(entries: seq<(Yaml, Yaml)>, key: Yaml): (r: Yaml)
    ensures (forall i :: 0 <= i < |entries| ==> entries[i].0 != key) ==> r == Other
    ensures forall i ::
      (0 <= i < |entries| && entries[i].0 == key && forall j :: 0 <= j < i ==> entries[j].0 != key)
      ==> r == entries[i].1
    decreases |entries|
  {
    if entries == [] then Other
    else if entries[0].0 == key then entries[0].1
    else Find(entries[1..], key)
  }

  /** Indexing `y["key"]`: a lookup in a mapping, `BadValue` on anything else. */
  function Get(y: Yaml, key: string): (r: Yaml)
    ensures !y.Hash? ==> r == Other
    ensures y.Hash? && (forall i :: 0 <= i < |y.entries| ==> y.entries[i].0 != Str(key)) ==> r == Other
    ensures y.Hash? ==> forall i ::
      (0 <= i < |y.entries| && y.entries[i].0 == Str(key) && forall j :: 0 <= j < i ==> y.entries[j].0 != Str(key))
      ==> r == y.entries[i].1
  {
    if y.Hash? then Find(y.entries, Str(key)) else Other
  }

  predicate AllStr(ys: seq<Yaml>)
  {
    forall i :: 0 <= i < |ys| ==> ys[i].Str?
  }

  /** The string values among `ys`, in order. */
  function StrValues(ys: seq<Yaml>): seq<string>
    decreases |ys|
  {
    if ys == [] then []
    else if ys[0].Str? then [ys[0].s] + StrValues(ys[1..])
    else StrValues(ys[1..])
  }

  /** Every string of a `fix instructions` list, nested ones included, in order. */
  function Flat(arr: seq<Yaml>): seq<string>
    decreases |arr|
  {
    if arr == [] then []
    else match arr[0]
      case Str(h) => [h] + Flat(arr[1..])
      case Arr(items) => StrValues(items) + Flat(arr[1..])
      case _ => Flat(arr[1..])
  }

  /** The lists on which the `i` loop of `get_err_msg` ends without a panic:
      from a headline position, the element after a string headline is either
      a string (the next headline) or an array of strings (its details); a last
      element must be a string. An array in headline position panics on
      `as_str().unwrap()`, a non-string detail panics in `print_arr`, and any
      other node after a headline leaves `i` unchanged forever. */
  predicate Pairable(arr: seq<Yaml>)
    ensures Pairable(arr) && arr != [] ==> arr[0].Str?
    decreases |arr|
  {
    if arr == [] then true
    else if |arr| == 1 then arr[0].Str?
    else if arr[1].Str? then arr[0].Str? && Pairable(arr[1..])
    else if arr[1].Arr? then arr[0].Str? && AllStr(arr[1].items) && Pairable(arr[2..])
    else false
  }

  /** The same lists described element by element: every element is a string
      or an array of strings, the first is a string, and no two arrays are adjacent. */
  predicate WellShaped(arr: seq<Yaml>)
  {
    (forall i :: 0 <= i < |arr| ==> arr[i].Str? || (arr[i].Arr? && AllStr(arr[i].items)))
    && (|arr| > 0 ==> arr[0].Str?)
    && (forall i :: 0 <= i < |arr| - 1 ==> arr[i].Str? || arr[i + 1].Str?)
  }

  lemma {:induction false} PairableIff(arr: seq<Yaml>)
    ensures Pairable(arr) <==> WellShaped(arr)
    decreases |arr|
  {
    if |arr| >= 2 {
      if arr[1].Str? {
        PairableIff(arr[1..]);
        if WellShaped(arr[1..]) && arr[0].Str? {
          forall i | 0 <= i < |arr| ensures arr[i].Str? || (arr[i].Arr? && AllStr(arr[i].items)) {
            if i > 0 { assert arr[i] == arr[1..][i - 1]; }
          }
          forall i | 0 <= i < |arr| - 1 ensures arr[i].Str? || arr[i + 1].Str? {
            if i > 0 { assert arr[i] == arr[1..][i - 1] && arr[i + 1] == arr[1..][i]; }
          }
        }
        if WellShaped(arr) {
          forall i | 0 <= i < |arr[1..]| ensures arr[1..][i].Str? || (arr[1..][i].Arr? && AllStr(arr[1..][i].items)) {
            assert arr[1..][i] == arr[i + 1];
          }
          forall i | 0 <= i < |arr[1..]| - 1 ensures arr[1..][i].Str? || arr[1..][i + 1].Str? {
            assert arr[1..][i] == arr[i + 1] && arr[1..][i + 1] == arr[i + 2];
          }
        }
      } else if arr[1].Arr? {
        PairableIff(arr[2..]);
        if WellShaped(arr[2..]) && arr[0].Str? && AllStr(arr[1].items) {
          forall i | 0 <= i < |arr| ensures arr[i].Str? || (arr[i].Arr? && AllStr(arr[i].items)) {
            if i > 1 { assert arr[i] == arr[2..][i - 2]; }
          }
          forall i | 0 <= i < |arr| - 1 ensures arr[i].Str? || arr[i + 1].Str? {
            if i > 1 { assert arr[i] == arr[2..][i - 2] && arr[i + 1] == arr[2..][i - 1]; }
            if i == 1 { assert arr[2] == arr[2..][0]; }
          }
        }
        if WellShaped(arr) {
          assert AllStr(arr[1].items);
          forall i | 0 <= i < |arr[2..]| ensures arr[2..][i].Str? || (arr[2..][i].Arr? && AllStr(arr[2..][i].items)) {
            assert arr[2..][i] == arr[i + 2];
          }
          forall i | 0 <= i < |arr[2..]| - 1 ensures arr[2..][i].Str? || arr[2..][i + 1].Str? {
            assert arr[2..][i] == arr[i + 2] && arr[2..][i + 1] == arr[i + 3];
          }
          if |arr| > 2 { assert arr[2..][0] == arr[2]; assert arr[1].Str? || arr[2].Str?; }
        }
      }
    }
  }

  /** The headlines of a list of instruction groups. */
  function Heads(gs: seq<seq<string>>): seq<string>
    requires GroupsNonEmpty(gs)
    decreases |gs|
  {
    if gs == [] then [] else [gs[0][0]] + Heads(gs[1..])
  }

  /** The instruction groups the `i` loop emits, each a flat list whose first
      element is the headline. A string followed by a string is a group alone;
      a string followed by an array takes that array's strings as details. */
  function Groups(arr: seq<Yaml>): (r: seq<seq<string>>)
    requires Pairable(arr)
    ensures GroupsNonEmpty(r)
    ensures Heads(r) == StrValues(arr)
    ensures Concat(r) == Flat(arr)
    decreases |arr|
  {
    if arr == [] then []
    else if |arr| == 1 then [[arr[0].s]]
    else if arr[1].Str? then [[arr[0].s]] + Groups(arr[1..])
    else [[arr[0].s] + StrValues(arr[1].items)] + Groups(arr[2..])
  }

  /** What `print_arr` appends for the details `ds`: `,"d"` for each. */
  function Quoted(ds: seq<string>): string
    decreases |ds|
  {
    if ds == [] then "" else ",\"" + ds[0] + "\"" + Quoted(ds[1..])
  }

  /** The slice literal `&["h","d1",...],` of one group. */
  function EncodeGroup(g: seq<string>): string
    requires |g| > 0
  {
    "&[\"" + g[0] + "\"" + Quoted(g[1..]) + "],"
  }

  function EncodeGroups(gs: seq<seq<string>>): string
    requires GroupsNonEmpty(gs)
    decreases |gs|
  {
    if gs == [] then "" else EncodeGroup(gs[0]) + EncodeGroups(gs[1..])
  }

  /** The field list of the `UserPanic { ... }` literal for `d`. */
  function EncodeDescriptor(d: UserPanic): string
    requires d.fixInstructions.Some? ==> GroupsNonEmpty(d.fixInstructions.value)
  {
    match d.fixInstructions
    case None => "error_msg:\"" + d.errorMsg + "\",fix_instructions: None,"
    case Some(gs) => "error_msg:\"" + d.errorMsg + "\",fix_instructions:Some(&[" + EncodeGroups(gs) + "]),"
  }

  /** What `get_err_msg` demands of an entry: a string `message`, and a
      `fix instructions` list the `i` loop gets through when there is one. */
  predicate EntryOk(entry: Yaml)
  {
    Get(entry, "message").Str?
    && (Get(entry, "fix instructions").Arr? ==> Pairable(Get(entry, "fix instructions").items))
  }

  /** The descriptor one catalog entry denotes. A `fix instructions` value that
      is absent or not an array counts as no instructions. */
  function Descriptor(entry: Yaml): (d: UserPanic)
    requires EntryOk(entry)
    ensures d.errorMsg == Get(entry, "message").s
    ensures d.fixInstructions.Some? <==> Get(entry, "fix instructions").Arr?
    ensures d.fixInstructions.Some? ==> GroupsNonEmpty(d.fixInstructions.value)
    ensures Renderable(d)
  {
    var fix := Get(entry, "fix instructions");
    UserPanic(Get(entry, "message").s, if fix.Arr? then Some(Groups(fix.items)) else None)
  }

  /** The `print_arr` closure: appends `,"d"` for every string of `ar`. */
  method PrintArr(ar: seq<Yaml>) returns (s: string)
    requires AllStr(ar)
    ensures s == Quoted(StrValues(ar))
  {
    s := "";
    for k := 0 to |ar|
      invariant s + Quoted(StrValues(ar[k..])) == Quoted(StrValues(ar))
    {
      assert ar[k..][1..] == ar[k + 1..];
      ghost var before := s;
      var piece := ",\"" + ar[k].s + "\"";
      s := s + piece;
      AppendAssoc(before, piece, Quoted(StrValues(ar[k + 1..])));
    }
    assert ar[|ar|..] == [];
  }

  /** One pass of the `i` loop on a headline followed by a string, or on a last
      headline: the group is the headline alone, written as `&["h"],`, and the
      loop goes on at `i + 1`. */
  lemma LoneStep(arr: seq<Yaml>, i: nat)
    requires i < |arr| && Pairable(arr[i..]) && (i + 1 == |arr| || arr[i + 1].Str?)
    ensures arr[i].Str? && Pairable(arr[i + 1..])
    ensures Groups(arr[i..]) == [[arr[i].s]] + Groups(arr[i + 1..])
    ensures EncodeGroups(Groups(arr[i..])) == "&[\"" + arr[i].s + "\"]," + EncodeGroups(Groups(arr[i + 1..]))
  {
    var rest := arr[i..];
    assert rest[0] == arr[i] && rest[1..] == arr[i + 1..];
    var h := arr[i].s;
    assert [h][1..] == [];
    assert "\"" + "]," == "\"],";
    assert EncodeGroup([h]) == "&[\"" + h + "\"],";
    assert ([[h]] + Groups(arr[i + 1..]))[1..] == Groups(arr[i + 1..]);
  }

  /** One pass of the `i` loop on a headline followed by an array: the group is
      the headline and the array's strings, written as `&["h","d1",...],`, and
      the loop goes on at `i + 2`. */
  lemma DetailsStep(arr: seq<Yaml>, i: nat)
    requires i + 1 < |arr| && Pairable(arr[i..]) && arr[i + 1].Arr?
    ensures arr[i].Str? && AllStr(arr[i + 1].items) && Pairable(arr[i + 2..])
    ensures Groups(arr[i..]) == [[arr[i].s] + StrValues(arr[i + 1].items)] + Groups(arr[i + 2..])
    ensures EncodeGroups(Groups(arr[i..])) ==
      "&[\"" + arr[i].s + "\"" + Quoted(StrValues(arr[i + 1].items)) + "]," + EncodeGroups(Groups(arr[i + 2..]))
  {
    var rest := arr[i..];
    assert rest[0] == arr[i] && rest[1] == arr[i + 1] && rest[2..] == arr[i + 2..];
    var g := [arr[i].s] + StrValues(arr[i + 1].items);
    assert g[1..] == StrValues(arr[i + 1].items);
    assert ([g] + Groups(arr[i + 2..]))[1..] == Groups(arr[i + 2..]);
  }

  /** What a pass of the `i` loop finds at `i`: a headline, followed by a string
      or an array when it is not the last element. */
  lemma NextShape(arr: seq<Yaml>, i: nat)
    requires i < |arr| && Pairable(arr[i..])
    ensures arr[i].Str?
    ensures i + 1 < |arr| ==> arr[i + 1].Str? || arr[i + 1].Arr?
  {
    var rest := arr[i..];
    assert rest[0] == arr[i];
    if i + 1 < |arr| { assert rest[1] == arr[i + 1]; }
  }

  /** One pass of the `i` loop of `get_err_msg`, starting at `i`: appends the
      slice literal of the group found there and says where the next pass starts,
      one past a headline followed by a string (or a last headline), two past a
      headline and its array of details. */
  method WritePass(s0: string, arr: seq<Yaml>, i: nat) returns (s: string, next: nat)
    requires i < |arr| && Pairable(arr[i..])
    ensures i < next <= |arr| && Pairable(arr[next..])
    ensures s + EncodeGroups(Groups(arr[next..])) == s0 + EncodeGroups(Groups(arr[i..]))
  {
    var piece: string;
    NextShape(arr, i);
    if i + 1 < |arr| {
      match arr[i + 1]
      case Str(_) =>
        piece := "&[\"" + arr[i].s + "\"],";
        LoneStep(arr, i);
        next := i + 1;
      case Arr(ar) =>
        var details := PrintArr(ar);
        piece := "&[\"" + arr[i].s + "\"" + details + "],";
        DetailsStep(arr, i);
        next := i + 2;
      // any other node: the source's loop makes no progress; Pairable rules it out
    } else {
      match arr[i]
      case Str(ss) =>
        piece := "&[\"" + ss + "\"],";
        LoneStep(arr, i);
        next := i + 1;
      // an array here panics on `as_str().unwrap()`; any other node makes
      // no progress; Pairable rules both out
    }
    s := s0 + piece;
    AppendAssoc(s0, piece, EncodeGroups(Groups(arr[next..])));
  }

  /** The `while i < items` loop of `get_err_msg`: appends to `s0` the slice
      literal of every group of `arr`, one pass per group. */
  method WriteGroups(s0: string, arr: seq<Yaml>) returns (s: string)
    requires Pairable(arr)
    ensures s == s0 + EncodeGroups(Groups(arr))
  {
    s := s0;
    var items := |arr|;
    var i := 0;
    while i < items
      invariant 0 <= i <= items
      invariant Pairable(arr[i..])
      invariant s + EncodeGroups(Groups(arr[i..])) == s0 + EncodeGroups(Groups(arr))
      decreases items - i
    {
      s, i := WritePass(s, arr, i);
    }
    assert arr[items..] == [] && arr[0..] == arr;
  }

  /** `get_err_msg`: the field list of the `UserPanic` literal for one entry. */
  method GetErrMsg(entry: Yaml) returns (s: string)
    requires EntryOk(entry)
    ensures s == EncodeDescriptor(Descriptor(entry))
  {
    s := "";
    var errMs := Get(entry, "message").s;
    var fix := Get(entry, "fix instructions");
    if fix.Arr? {
      var arr := fix.items;
      var opening := "error_msg:\"" + errMs + "\",fix_instructions:Some(&[";
      EmptyAppend(opening);
      s := s + opening;
      s := WriteGroups(s, arr);
      s := s + "]),";
    } else {
      var whole := "error_msg:\"" + errMs + "\",fix_instructions: None,";
      EmptyAppend(whole);
      s := s + whole;
    }
  }

  const Header: string := "use userpanic::UserPanic;\n"

  /** The constant declaration of catalog entry `name`. */
  function Decl(name: string, d: UserPanic): string
    requires d.fixInstructions.Some? ==> GroupsNonEmpty(d.fixInstructions.value)
  {
    "pub const " + name + ":UserPanic = UserPanic {" + EncodeDescriptor(d) + "};"
  }

  /** What `read_from_yml` demands: a mapping at the top has string keys and
      entries `get_err_msg` accepts. Any other top-level node is accepted. */
  predicate CatalogOk(yaml: Yaml)
  {
    yaml.Hash? ==>
      forall i :: 0 <= i < |yaml.entries| ==> yaml.entries[i].0.Str? && EntryOk(yaml.entries[i].1)
  }

  predicate EntriesOk(entries: seq<(Yaml, Yaml)>)
  {
    forall i :: 0 <= i < |entries| ==> entries[i].0.Str? && EntryOk(entries[i].1)
  }

  predicate Encodable(cat: seq<(string, UserPanic)>)
  {
    forall i :: 0 <= i < |cat| ==>
      cat[i].1.fixInstructions.Some? ==> GroupsNonEmpty(cat[i].1.fixInstructions.value)
  }

  /** The named descriptors of a mapping, in mapping order. */
  function CompileEntries(entries: seq<(Yaml, Yaml)>): (cat: seq<(string, UserPanic)>)
    requires EntriesOk(entries)
    ensures |cat| == |entries| && Encodable(cat)
    ensures forall i :: 0 <= i < |cat| ==>
      cat[i].0 == entries[i].0.s && cat[i].1 == Descriptor(entries[i].1) && Renderable(cat[i].1)
    decreases |entries|
  {
    if entries == [] then []
    else [(entries[0].0.s, Descriptor(entries[0].1))] + CompileEntries(entries[1..])
  }

  /** The catalog a document denotes: empty unless the top level is a mapping. */
  function Compile(yaml: Yaml): seq<(string, UserPanic)>
    requires CatalogOk(yaml)
  {
    if yaml.Hash? then CompileEntries(yaml.entries) else []
  }

  /** The declarations of a catalog, one after the other with no separator. */
  function Decls(cat: seq<(string, UserPanic)>): string
    requires Encodable(cat)
    decreases |cat|
  {
    if cat == [] then "" else Decl(cat[0].0, cat[0].1) + Decls(cat[1..])
  }

  lemma DeclsStep(cat: seq<(string, UserPanic)>, k: nat)
    requires Encodable(cat) && k < |cat|
    ensures Encodable(cat[k..]) && Encodable(cat[k + 1..])
    ensures Decls(cat[k..]) == Decl(cat[k].0, cat[k].1) + Decls(cat[k + 1..])
  {
    assert cat[k..][0] == cat[k];
    assert cat[k..][1..] == cat[k + 1..];
  }

  /** The generated source: the `use` line, then the catalog's declarations. */
  function CatalogCode(yaml: Yaml): string
    requires CatalogOk(yaml)
  {
    Header + Decls(Compile(yaml))
  }

  /** `read_from_yml` over the parsed document: the header line, then one
      `pub const` per key of a top-level mapping. */
  method ReadFromYml(yaml: Yaml) returns (file: string)
    requires CatalogOk(yaml)
    ensures file == CatalogCode(yaml)
  {
    file := Header;
    if yaml.Hash? {
      var hash := yaml.entries;
      ghost var cat := CompileEntries(hash);
      ghost var head := file;
      for k := 0 to |hash|
        invariant Encodable(cat[k..])
        invariant file + Decls(cat[k..]) == head + Decls(cat)
      {
        var (key, val) := hash[k];
        var stName := key.s;
        var body := GetErrMsg(val);
        var decl := "pub const " + stName + ":UserPanic = UserPanic {" + body + "};";
        DeclsStep(cat, k);
        assert cat[k] == (stName, Descriptor(val));
        AppendAssoc(file, decl, Decls(cat[k + 1..]));
        file := file + decl;
      }
      assert cat[|hash|..] == [];
    }
  }

  /** Declarations are written on across a concatenation of catalogs. */
  lemma {:induction false} DeclsAppend(a: seq<(string, UserPanic)>, b: seq<(string, UserPanic)>)
    requires Encodable(a) && Encodable(b)
    ensures Encodable(a + b)
    ensures Decls(a + b) == Decls(a) + Decls(b)
    decreases |a|
  {
    assert Encodable(a + b) by {
      forall i | 0 <= i < |a + b|
        ensures (a + b)[i].1.fixInstructions.Some? ==> GroupsNonEmpty((a + b)[i].1.fixInstructions.value)
      {
        if i >= |a| { assert (a + b)[i] == b[i - |a|]; }
      }
    }
    if a == [] {
      assert a + b == b;
    } else {
      assert (a + b)[0] == a[0];
      assert (a + b)[1..] == a[1..] + b;
      assert Encodable(a[1..]);
      DeclsAppend(a[1..], b);
      AppendAssoc(Decl(a[0].0, a[0].1), Decls(a[1..]), Decls(b));
    }
  }

  /** The generated file starts with the `use` line; a document whose top level
      is not a mapping gives that line alone. */
  lemma CatalogHeader(yaml: Yaml)
    requires CatalogOk(yaml)
    ensures |CatalogCode(yaml)| >= |Header| && CatalogCode(yaml)[..|Header|] == Header
    ensures !yaml.Hash? ==> CatalogCode(yaml) == Header
  {
  }

  /** Key `k` of a top-level mapping gives the `k`-th declaration, named by the
      key and holding its entry's descriptor, between the declarations of the
      keys before it and those after it, with no separator. */
  lemma CatalogEntryAt(yaml: Yaml, k: nat)
    requires CatalogOk(yaml) && yaml.Hash? && k < |yaml.entries|
    ensures Encodable(Compile(yaml)[..k]) && Encodable(Compile(yaml)[k + 1..])
    ensures CatalogCode(yaml) == Header
      + (Decls(Compile(yaml)[..k])
         + Decl(yaml.entries[k].0.s, Descriptor(yaml.entries[k].1))
         + Decls(Compile(yaml)[k + 1..]))
  {
    var cat := Compile(yaml);
    assert cat == cat[..k] + cat[k..];
    assert Encodable(cat[..k]);
    DeclsStep(cat, k);
    DeclsAppend(cat[..k], cat[k..]);
    AppendAssoc(Decls(cat[..k]), Decl(cat[k].0, cat[k].1), Decls(cat[k + 1..]));
  }

  /** Every descriptor the generator emits can be rendered: each of its
      instruction groups has a headline. */
  lemma CompiledRenderable(yaml: Yaml, k: nat)
    requires CatalogOk(yaml) && yaml.Hash? && k < |yaml.entries|
    ensures |Compile(yaml)| == |yaml.entries|
    ensures Compile(yaml)[k].0 == yaml.entries[k].0.s
    ensures Renderable(Compile(yaml)[k].1)
  {
  }

  lemma StrValuesPair(x: string, y: string)
    ensures StrValues([Str(x), Str(y)]) == [x, y]
  {
    var ys := [Str(x), Str(y)];
    assert ys[1..] == [Str(y)];
    assert [Str(y)][1..] == [];
    assert StrValues([Str(y)]) == [y] + StrValues([]);
    assert StrValues(ys) == [x] + StrValues([Str(y)]);
  }

  /** A headline followed by an array of two strings forms one group of three. */
  lemma PairWithTwoDetails(h: string, x: string, y: string, rest: seq<Yaml>)
    requires Pairable(rest) && (rest == [] || rest[0].Str?)
    ensures Pairable([Str(h), Arr([Str(x), Str(y)])] + rest)
    ensures Groups([Str(h), Arr([Str(x), Str(y)])] + rest) == [[h, x, y]] + Groups(rest)
  {
    var arr := [Str(h), Arr([Str(x), Str(y)])] + rest;
    assert arr[1] == Arr([Str(x), Str(y)]);
    assert arr[2..] == rest;
    StrValuesPair(x, y);
    assert [h] + [x, y] == [h, x, y];
  }

  /** The pairing of the list in the repository's `print_s` test,
      `[first, [a, b], second, [c, d], third]`: three groups, each array joined
      to the headline before it, the last headline alone. */
  lemma PrintSPairing(first: string, a: string, b: string, second: string, c: string, d: string, third: string)
    ensures Pairable([Str(first), Arr([Str(a), Str(b)]), Str(second), Arr([Str(c), Str(d)]), Str(third)])
    ensures Groups([Str(first), Arr([Str(a), Str(b)]), Str(second), Arr([Str(c), Str(d)]), Str(third)])
      == [[first, a, b], [second, c, d], [third]]
  {
    var last := [Str(third)];
    assert Groups(last) == [[third]];
    PairWithTwoDetails(second, c, d, last);
    var tail := [Str(second), Arr([Str(c), Str(d)])] + last;
    PairWithTwoDetails(first, a, b, tail);
    assert [Str(first), Arr([Str(a), Str(b)])] + tail
      == [Str(first), Arr([Str(a), Str(b)]), Str(second), Arr([Str(c), Str(d)]), Str(third)];
  }

  /** The two entries of the repository's `print_s` test: `foo` with a message
      and the five-element instruction list compiles to three groups, `bar`
      with a message alone to a descriptor without instructions. */
  lemma PrintSDescriptors(foo: string, bar: string,
                          first: string, a: string, b: string, second: string, c: string, d: string, third: string)
    ensures var list := [Str(first), Arr([Str(a), Str(b)]), Str(second), Arr([Str(c), Str(d)]), Str(third)];
      var fooEntry := Hash([(Str("message"), Str(foo)), (Str("fix instructions"), Arr(list))]);
      EntryOk(fooEntry)
      && Descriptor(fooEntry) == UserPanic(foo, Some([[first, a, b], [second, c, d], [third]]))
    ensures var barEntry := Hash([(Str("message"), Str(bar))]);
      EntryOk(barEntry) && Descriptor(barEntry) == UserPanic(bar, None)
  {
    var list := [Str(first), Arr([Str(a), Str(b)]), Str(second), Arr([Str(c), Str(d)]), Str(third)];
    var fooPairs := [(Str("message"), Str(foo)), (Str("fix instructions"), Arr(list))];
    assert Str("message") != Str("fix instructions");
    assert fooPairs[1..] == [fooPairs[1]];
    assert Find(fooPairs, Str("fix instructions")) == Arr(list);
    var barPairs := [(Str("message"), Str(bar))];
    assert barPairs[1..] == [];
    assert Find(barPairs, Str("fix instructions")) == Other;
    PrintSPairing(first, a, b, second, c, d, third);
  }

  /** Strings are put between quotes without escaping, so the text does not
      determine the groups: a headline holding `","` is written exactly like a
      headline and a detail. */
  lemma UnescapedQuotesCollide(h: string, d: string)
    ensures [h + "\",\"" + d] != [h, d]
    ensures EncodeGroup([h + "\",\"" + d]) == EncodeGroup([h, d])
  {
    var g := [h, d];
    assert g[1..] == [d] && [d][1..] == [];
    assert [h + "\",\"" + d][1..] == [];
    assert Quoted([d]) == ",\"" + d + "\"";
    assert ",\"" == "," + "\"";
  }
}

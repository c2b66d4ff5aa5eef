/** Theme values as a tree of named entries, and the utilities that walk
    it: flattening to CSS variable names, the field list of the settings
    screen, reading and writing one value by its key path, and the custom
    and preset themes. */
module Themes {
  import opened Wrappers
  import opened Seqs
  import opened Strings

  /** A theme value: a colour or size string, or a nested object. */
  datatype Node = Leaf(value: string) | Group(entries: seq<(string, Node)>)

  type Entries = seq<(string, Node)>

  datatype AppTheme = AppTheme(id: string, name: string, isCustom: bool, values: Entries)

  // ----- Objects as ordered entry lists -----

  function KeysOf<V>(r: seq<(string, V)>): (ks: seq<string>)
    ensures |ks| == |r| && forall i :: 0 <= i < |r| ==> ks[i] == r[i].0
  {
    seq(|r|, i requires 0 <= i < |r| => r[i].0)
  }

  /** `r[k] = v`: an existing key keeps its place, a new one goes last. */
  function Put<V>(r: seq<(string, V)>, k: string, v: V): (s: seq<(string, V)>)
    ensures k !in KeysOf(r) ==> s == r + [(k, v)]
    ensures k in KeysOf(s)
  {
    if r == [] then
      assert KeysOf([(k, v)])[0] == k;
      [(k, v)]
    else if r[0].0 == k then
      assert KeysOf([(k, v)] + r[1..])[0] == k;
      [(k, v)] + r[1..]
    else
      assert KeysOf(r[1..]) == KeysOf(r)[1..];
      var t := Put(r[1..], k, v);
      assert KeysOf([r[0]] + t) == [r[0].0] + KeysOf(t);
      [r[0]] + t
  }

  /** `Object.assign(r, xs)`: each entry of `xs` put in turn. */
  function Assign<V>(r: seq<(string, V)>, xs: seq<(string, V)>): seq<(string, V)>
    decreases |xs|
  {
    if xs == [] then r else Assign(Put(r, xs[0].0, xs[0].1), xs[1..])
  }

  /** The value under `k`, the first entry holding it. */
  function Find<V>(r: seq<(string, V)>, k: string): (v: Option<V>)
    ensures v.Some? <==> k in KeysOf(r)
  {
    if r == [] then None
    else if r[0].0 == k then Some(r[0].1)
    else
      assert KeysOf(r[1..]) == KeysOf(r)[1..];
      Find(r[1..], k)
  }

  lemma {:induction false} FindPut<V>(r: seq<(string, V)>, k: string, v: V, k2: string)
    ensures Find(Put(r, k, v), k2) == if k2 == k then Some(v) else Find(r, k2)
  {
    if r != [] && r[0].0 != k {
      FindPut(r[1..], k, v, k2);
    }
  }

  // ----- flattenThemeValues -----

  /** The CSS name of `key` under `prefix`. */
  function Next(prefix: string, key: string): string {
    if prefix != "" then prefix + "-" + key else key
  }

  /** The flattened object, built entry by entry as the loop does. */
  function FlatEntries(es: Entries, prefix: string): seq<(string, string)>
    decreases es, 1
  {
    if es == [] then []
    else FlatStep(FlatEntries(es[..|es| - 1], prefix), es[|es| - 1], prefix)
  }

  function FlatStep(r: seq<(string, string)>, e: (string, Node), prefix: string): seq<(string, string)>
    decreases e, 0
  {
    var k := Next(prefix, e.0);
    match e.1
    case Leaf(v) => Put(r, k, v)
    case Group(sub) => Assign(r, FlatEntries(sub, k))
  }

  /** `flattenThemeValues(values, prefix)`. */
  method FlattenThemeValues(values: Entries, prefix: string) returns (result: seq<(string, string)>)
    ensures result == FlatEntries(values, prefix)
    decreases values
  {
    result := [];
    for i := 0 to |values|
      invariant result == FlatEntries(values[..i], prefix)
    {
      assert values[..i + 1][..i] == values[..i];
      var key, value := values[i].0, values[i].1;
      var cssKey := if prefix != "" then prefix + "-" + key else key;
      if value.Group? {
        assert value < values[i];
        var sub := FlattenThemeValues(value.entries, cssKey);
        result := Assign(result, sub);
      } else {
        result := Put(result, cssKey, value.value);
      }
    }
    assert values[..|values|] == values;
  }

  // ----- The leaves of a tree -----

  /** Every leaf in document order, with the key path that leads to it. */
  function Leaves(es: Entries): seq<(seq<string>, string)>
    decreases es, 1
  {
    if es == [] then [] else Leaves(es[..|es| - 1]) + LeavesOf(es[|es| - 1])
  }

  function LeavesOf(e: (string, Node)): seq<(seq<string>, string)>
    decreases e, 0
  {
    match e.1
    case Leaf(v) => [([e.0], v)]
    case Group(sub) => Under(e.0, Leaves(sub))
  }

  function Under(k: string, ls: seq<(seq<string>, string)>): (r: seq<(seq<string>, string)>)
    ensures |r| == |ls| && forall i :: 0 <= i < |ls| ==> r[i] == ([k] + ls[i].0, ls[i].1)
  {
    seq(|ls|, i requires 0 <= i < |ls| => ([k] + ls[i].0, ls[i].1))
  }

  /** The CSS name of a key path under `prefix`, joined with '-' as the
      recursion builds it. */
  function CssKey(prefix: string, path: seq<string>): string
    decreases |path|
  {
    if path == [] then prefix else CssKey(Next(prefix, path[0]), path[1..])
  }

  function Named(prefix: string, ls: seq<(seq<string>, string)>): (r: seq<(string, string)>)
    ensures |r| == |ls| && forall i :: 0 <= i < |ls| ==> r[i] == (CssKey(prefix, ls[i].0), ls[i].1)
  {
    seq(|ls|, i requires 0 <= i < |ls| => (CssKey(prefix, ls[i].0), ls[i].1))
  }

  lemma NamedAppend(prefix: string, a: seq<(seq<string>, string)>, b: seq<(seq<string>, string)>)
    ensures Named(prefix, a + b) == Named(prefix, a) + Named(prefix, b)
  {
  }

  lemma NamedUnder(prefix: string, k: string, ls: seq<(seq<string>, string)>)
    ensures Named(prefix, Under(k, ls)) == Named(Next(prefix, k), ls)
  {
    forall i | 0 <= i < |ls|
      ensures CssKey(prefix, ([k] + ls[i].0)) == CssKey(Next(prefix, k), ls[i].0)
    {
      assert ([k] + ls[i].0)[1..] == ls[i].0;
    }
  }

  /** Putting keys that are new and distinct only appends them. */
  lemma {:induction false} AssignFresh<V>(r: seq<(string, V)>, xs: seq<(string, V)>)
    requires NoDuplicates(KeysOf(r + xs))
    ensures Assign(r, xs) == r + xs
    decreases |xs|
  {
    if xs != [] {
      var ks := KeysOf(r + xs);
      assert xs[0].0 !in KeysOf(r) by {
        assert ks[|r|] == xs[0].0;
        forall i | 0 <= i < |r| ensures KeysOf(r)[i] != xs[0].0 {
          assert ks[i] == KeysOf(r)[i];
        }
      }
      assert (r + [xs[0]]) + xs[1..] == r + xs;
      AssignFresh(r + [xs[0]], xs[1..]);
    }
  }

  /** Both parts of a list without repeated keys are without repeated keys. */
  lemma DistinctKeysParts<V>(a: seq<(string, V)>, b: seq<(string, V)>)
    requires NoDuplicates(KeysOf(a + b))
    ensures NoDuplicates(KeysOf(a)) && NoDuplicates(KeysOf(b))
  {
    var ks := KeysOf(a + b);
    forall i, j | 0 <= i < j < |a| ensures KeysOf(a)[i] != KeysOf(a)[j] {
      assert ks[i] == KeysOf(a)[i] && ks[j] == KeysOf(a)[j];
    }
    forall i, j | 0 <= i < j < |b| ensures KeysOf(b)[i] != KeysOf(b)[j] {
      assert ks[|a| + i] == KeysOf(b)[i] && ks[|a| + j] == KeysOf(b)[j];
    }
  }

  /** When no two leaves share a CSS name, the flattened object has one
      entry per leaf, in document order, named by its key path. */
  lemma {:induction false} FlattenIsLeaves(es: Entries, prefix: string)
    requires NoDuplicates(KeysOf(Named(prefix, Leaves(es))))
    ensures FlatEntries(es, prefix) == Named(prefix, Leaves(es))
    decreases es, 1
  {
    if es != [] {
      var init, last := es[..|es| - 1], es[|es| - 1];
      NamedAppend(prefix, Leaves(init), LeavesOf(last));
      var a, b := Named(prefix, Leaves(init)), Named(prefix, LeavesOf(last));
      DistinctKeysParts(a, b);
      FlattenIsLeaves(init, prefix);
      FlatStepFresh(a, last, prefix);
    }
  }

  lemma {:induction false} FlatStepFresh(r: seq<(string, string)>, e: (string, Node), prefix: string)
    requires NoDuplicates(KeysOf(r + Named(prefix, LeavesOf(e))))
    ensures FlatStep(r, e, prefix) == r + Named(prefix, LeavesOf(e))
    decreases e, 0
  {
    var k := Next(prefix, e.0);
    match e.1
    case Leaf(v) =>
      assert Named(prefix, LeavesOf(e)) == [(k, v)] by {
        assert CssKey(prefix, [e.0]) == CssKey(k, []);
      }
      AssignFresh(r, [(k, v)]);
    case Group(sub) =>
      NamedUnder(prefix, e.0, Leaves(sub));
      DistinctKeysParts(r, Named(k, Leaves(sub)));
      FlattenIsLeaves(sub, k);
      AssignFresh(r, Named(k, Leaves(sub)));
  }

  // ----- generateCSSVariables -----

  function CssLine(key: string, value: string): string {
    "--theme-" + key + ": " + value + ";"
  }

  function CssLines(flat: seq<(string, string)>): (ls: seq<string>)
    ensures |ls| == |flat| && forall i :: 0 <= i < |flat| ==> ls[i] == CssLine(flat[i].0, flat[i].1)
  {
    seq(|flat|, i requires 0 <= i < |flat| => CssLine(flat[i].0, flat[i].1))
  }

  /** `generateCSSVariables(theme)`: one declaration per flattened entry;
      every entry's `--theme-<key>: <value>;` is in the text. */
  function GenerateCSSVariables(theme: AppTheme): (css: string)
    ensures var flat := FlatEntries(theme.values, "");
      forall i :: 0 <= i < |flat| ==> Includes(css, CssLine(flat[i].0, flat[i].1))
  {
    var flat := FlatEntries(theme.values, "");
    DeclarationsIncluded(CssLines(flat), "\n    ");
    Join(CssLines(flat), "\n    ")
  }

  lemma DeclarationsIncluded(lines: seq<string>, sep: string)
    ensures forall i :: 0 <= i < |lines| ==> Includes(Join(lines, sep), lines[i])
  {
    forall i | 0 <= i < |lines| ensures Includes(Join(lines, sep), lines[i]) {
      JoinIncludes(lines, sep, i);
    }
  }

  /** How often `c` occurs in `s`. */
  function Count(s: string, c: char): (n: nat)
    ensures c !in s ==> n == 0
  {
    if s == [] then 0 else (if s[0] == c then 1 else 0) + Count(s[1..], c)
  }

  lemma {:induction false} CountAppend(a: string, b: string, c: char)
    ensures Count(a + b, c) == Count(a, c) + Count(b, c)
  {
    if a == [] {
      assert a + b == b;
    } else {
      assert (a + b)[1..] == a[1..] + b;
      CountAppend(a[1..], b, c);
    }
  }

  /** Joining parts free of `c` with a separator holding one `c`. */
  lemma {:induction false} CountJoin(parts: seq<string>, sep: string, c: char)
    requires |parts| >= 1 && forall i :: 0 <= i < |parts| ==> c !in parts[i]
    requires Count(sep, c) == 1
    ensures Count(Join(parts, sep), c) + 1 == |parts|
  {
    if |parts| > 1 {
      CountJoin(parts[1..], sep, c);
      CountAppend(parts[0] + sep, Join(parts[1..], sep), c);
      CountAppend(parts[0], sep, c);
    }
  }

  /** With no line break inside names or values, the CSS text has exactly
      one line per flattened entry. */
  lemma OneLinePerEntry(theme: AppTheme)
    requires var flat := FlatEntries(theme.values, "");
      |flat| >= 1 && forall i :: 0 <= i < |flat| ==> '\n' !in flat[i].0 && '\n' !in flat[i].1
    ensures Count(GenerateCSSVariables(theme), '\n') + 1 == |FlatEntries(theme.values, "")|
  {
    LinesCount(FlatEntries(theme.values, ""));
  }

  lemma LinesCount(flat: seq<(string, string)>)
    requires |flat| >= 1 && forall i :: 0 <= i < |flat| ==> '\n' !in flat[i].0 && '\n' !in flat[i].1
    ensures Count(Join(CssLines(flat), "\n    "), '\n') + 1 == |flat|
  {
    var lines := CssLines(flat);
    forall i | 0 <= i < |lines| ensures '\n' !in lines[i] {
      LineUnbroken(flat[i].0, flat[i].1);
    }
    assert Count("\n    ", '\n') == 1;
    CountJoin(lines, "\n    ", '\n');
  }

  lemma LineUnbroken(key: string, value: string)
    requires '\n' !in key && '\n' !in value
    ensures '\n' !in CssLine(key, value)
  {
    assert '\n' !in "--theme-" && '\n' !in ": " && '\n' !in ";";
  }

  // ----- getThemeFieldsMeta -----

  datatype FieldType = Color | Text

  datatype ThemeFieldMeta = ThemeFieldMeta(key: string, path: seq<string>, fieldLabel: string,
                                           kind: FieldType, currentValue: string)

  function UpperChar(c: char): (d: char) {
    if 'a' <= c <= 'z' then (c as int - 32) as char else c
  }

  predicate IsLetter(c: char) {
    'a' <= c <= 'z' || 'A' <= c <= 'Z'
  }

  predicate StartsWith(s: string, p: string) {
    |p| <= |s| && s[..|p|] == p
  }

  /** A value shown with a colour picker: `#`, `rgb` or `hsl` notation, or
      a word of letters only (a colour name). */
  predicate IsColorValue(v: string) {
    StartsWith(v, "#") || StartsWith(v, "rgb") || StartsWith(v, "hsl") ||
    (|v| > 0 && forall i :: 0 <= i < |v| ==> IsLetter(v[i]))
  }

  predicate IsCapital(c: char) {
    'A' <= c <= 'Z'
  }

  /** The number of capitals A-Z in `s`. */
  function Capitals(s: string): nat {
    if s == [] then 0 else (if IsCapital(s[0]) then 1 else 0) + Capitals(s[1..])
  }

  /** `.replace(/([A-Z])/g, ' $1')`: one space more per capital, no capital
      first, and every capital right after a space. */
  function SpaceBeforeCapitals(s: string): (r: string)
    ensures |r| == |s| + Capitals(s)
    ensures r != [] ==> !IsCapital(r[0])
    ensures forall i :: 0 < i < |r| && IsCapital(r[i]) ==> r[i - 1] == ' '
  {
    if s == [] then []
    else (if IsCapital(s[0]) then [' ', s[0]] else [s[0]]) + SpaceBeforeCapitals(s[1..])
  }

  /** Dropping the space in front of each capital. */
  function DropSpaceBeforeCapitals(r: string): (s: string)
  {
    if |r| >= 2 && r[0] == ' ' && IsCapital(r[1]) then [r[1]] + DropSpaceBeforeCapitals(r[2..])
    else if r != [] then [r[0]] + DropSpaceBeforeCapitals(r[1..])
    else []
  }

  /** The replacement only inserts the spaces: dropping them again gives
      back the key, whatever spaces it had of its own. */
  lemma {:induction false} SpacesOnlyInserted(s: string)
    ensures DropSpaceBeforeCapitals(SpaceBeforeCapitals(s)) == s
  {
    if s != [] {
      var rest := SpaceBeforeCapitals(s[1..]);
      SpacesOnlyInserted(s[1..]);
      if IsCapital(s[0]) {
        assert SpaceBeforeCapitals(s) == [' ', s[0]] + rest;
        assert ([' ', s[0]] + rest)[2..] == rest;
      } else {
        assert SpaceBeforeCapitals(s) == [s[0]] + rest;
        assert ([s[0]] + rest)[1..] == rest;
      }
    }
  }

  predicate IsLineTerminator(c: char) {
    c == '\n' || c == '\r' || c == '\U{2028}' || c == '\U{2029}'
  }

  /** `.replace(/^./, str => str.toUpperCase())`: `.` does not match a line terminator. */
  function UpperFirst(s: string): string {
    if s != [] && !IsLineTerminator(s[0]) then [UpperChar(s[0])] + s[1..] else s
  }

  /** The readable label of a key: `backgroundDarker` reads "Background Darker". */
  function Label(key: string): string {
    Trim(UpperFirst(SpaceBeforeCapitals(key)))
  }

  /** `p.charAt(0).toUpperCase() + p.slice(1)`. */
  function Capitalized(p: string): string {
    if p == [] then [] else [UpperChar(p[0])] + p[1..]
  }

  /** The labels of the enclosing objects, each followed by an arrow. */
  function ParentLabel(path: seq<string>): string {
    if |path| == 0 then ""
    else Join(seq(|path|, i requires 0 <= i < |path| => Capitalized(path[i])), " → ") + " → "
  }

  function Field(key: string, path: seq<string>, value: string): ThemeFieldMeta {
    ThemeFieldMeta(key, path + [key], ParentLabel(path) + Label(key),
                   if IsColorValue(value) then Color else Text, value)
  }

  /** The field list, built entry by entry as the loop does. */
  function Fields(es: Entries, path: seq<string>): seq<ThemeFieldMeta>
    decreases es, 1
  {
    if es == [] then [] else Fields(es[..|es| - 1], path) + FieldsAt(es[|es| - 1], path)
  }

  function FieldsAt(e: (string, Node), path: seq<string>): seq<ThemeFieldMeta>
    decreases e, 0
  {
    match e.1
    case Leaf(v) => [Field(e.0, path, v)]
    case Group(sub) => Fields(sub, path + [e.0])
  }

  /** `getThemeFieldsMeta(values, path)`. */
  method GetThemeFieldsMeta(values: Entries, path: seq<string>) returns (fields: seq<ThemeFieldMeta>)
    ensures fields == Fields(values, path)
    decreases values
  {
    fields := [];
    for i := 0 to |values|
      invariant fields == Fields(values[..i], path)
    {
      assert values[..i + 1][..i] == values[..i];
      var key, value := values[i].0, values[i].1;
      var currentPath := path + [key];
      if value.Group? {
        assert value < values[i];
        var sub := GetThemeFieldsMeta(value.entries, currentPath);
        fields := fields + sub;
      } else {
        var isColor := IsColorValue(value.value);
        var keyLabel := Trim(UpperFirst(SpaceBeforeCapitals(key)));
        var parentLabel := if |path| > 0
          then Join(seq(|path|, j requires 0 <= j < |path| => Capitalized(path[j])), " → ") + " → "
          else "";
        fields := fields + [ThemeFieldMeta(key, currentPath, parentLabel + keyLabel,
                                           if isColor then Color else Text, value.value)];
      }
    }
    assert values[..|values|] == values;
  }

  /** The field `f` describes the leaf `l`, reached from `path`. */
  predicate Describes(f: ThemeFieldMeta, l: (seq<string>, string), path: seq<string>) {
    f.path == path + l.0 && l.0 != [] && f.key == l.0[|l.0| - 1] &&
    f.currentValue == l.1 && (f.kind == Color <==> IsColorValue(l.1))
  }

  predicate DescribesAll(fs: seq<ThemeFieldMeta>, ls: seq<(seq<string>, string)>, path: seq<string>) {
    |fs| == |ls| && forall i :: 0 <= i < |fs| ==> Describes(fs[i], ls[i], path)
  }

  lemma DescribesAppend(fs: seq<ThemeFieldMeta>, ls: seq<(seq<string>, string)>,
                        gs: seq<ThemeFieldMeta>, ms: seq<(seq<string>, string)>, path: seq<string>)
    requires DescribesAll(fs, ls, path) && DescribesAll(gs, ms, path)
    ensures DescribesAll(fs + gs, ls + ms, path)
  {
    forall i | 0 <= i < |fs| + |gs| ensures Describes((fs + gs)[i], (ls + ms)[i], path) {
      if i >= |fs| {
        assert (fs + gs)[i] == gs[i - |fs|] && (ls + ms)[i] == ms[i - |fs|];
      }
    }
  }

  /** One field per leaf, in document order: its path is the key path to
      the leaf, its key the last step of that path, its value the leaf's,
      and it is a colour field exactly when the value looks like a colour. */
  lemma {:induction false} FieldsFollowLeaves(es: Entries, path: seq<string>)
    ensures DescribesAll(Fields(es, path), Leaves(es), path)
    decreases es, 1
  {
    if es != [] {
      FieldsFollowLeaves(es[..|es| - 1], path);
      FieldsAtFollowLeaves(es[|es| - 1], path);
      DescribesAppend(Fields(es[..|es| - 1], path), Leaves(es[..|es| - 1]),
                      FieldsAt(es[|es| - 1], path), LeavesOf(es[|es| - 1]), path);
    }
  }

  lemma {:induction false} FieldsAtFollowLeaves(e: (string, Node), path: seq<string>)
    ensures DescribesAll(FieldsAt(e, path), LeavesOf(e), path)
    decreases e, 0
  {
    match e.1
    case Leaf(v) =>
      FieldDescribes(e.0, path, v);
    case Group(sub) =>
      FieldsFollowLeaves(sub, path + [e.0]);
      DescribesUnder(Fields(sub, path + [e.0]), Leaves(sub), e.0, path);
  }

  lemma FieldDescribes(key: string, path: seq<string>, v: string)
    ensures DescribesAll([Field(key, path, v)], [([key], v)], path)
  {
  }

  lemma DescribesUnder(fs: seq<ThemeFieldMeta>, ls: seq<(seq<string>, string)>, k: string, path: seq<string>)
    requires DescribesAll(fs, ls, path + [k])
    ensures DescribesAll(fs, Under(k, ls), path)
  {
    forall i | 0 <= i < |ls| ensures Describes(fs[i], Under(k, ls)[i], path) {
      assert Describes(fs[i], ls[i], path + [k]);
      assert path + [k] + ls[i].0 == path + ([k] + ls[i].0);
      assert ([k] + ls[i].0)[|ls[i].0|] == ls[i].0[|ls[i].0| - 1];
    }
  }

  // ----- getNestedValue and setNestedValue -----

  /** What `current` holds while walking a key path: a value, `undefined`,
      or the TypeError thrown by reading a property of `undefined`. */
  datatype Lookup = Found(node: Node) | Undefined | Thrown

  /** `current[key]`. A property of a string reads `undefined`. */
  function Access(current: Lookup, key: string): Lookup {
    match current
    case Found(Group(es)) => (var v := Find(es, key); if v.Some? then Found(v.value) else Undefined)
    case Found(Leaf(_)) => Undefined
    case Undefined => Thrown
    case Thrown => Thrown
  }

  /** The value reached from `current` by `path`. */
  function Get(current: Lookup, path: seq<string>): Lookup
    decreases |path|
  {
    if path == [] then current else Get(Access(current, path[0]), path[1..])
  }

  /** `getNestedValue(obj, path)`. */
  method GetNestedValue(obj: Node, path: seq<string>) returns (current: Lookup)
    ensures current == Get(Found(obj), path)
  {
    current := Found(obj);
    for i := 0 to |path|
      invariant Get(current, path[i..]) == Get(Found(obj), path)
    {
      assert path[i..][1..] == path[i + 1..];
      current := Access(current, path[i]);
    }
  }

  /** `current[key] = value`: strict-mode code throws (`None`) when `current`
      is not an object. */
  function SetKey(current: Node, key: string, value: string): Option<Node> {
    if current.Group? then Some(Group(Put(current.entries, key, Leaf(value)))) else None
  }

  function SetAt(current: Node, path: seq<string>, value: string): (r: Option<Node>)
    requires |path| >= 1
    ensures r.Some? ==> r.value.Group?
    decreases |path|
  {
    if |path| == 1 then SetKey(current, path[0], value)
    else
      var child := Access(Found(current), path[0]);
      if !child.Found? then None
      else
        var updated := SetAt(child.node, path[1..], value);
        if updated.None? then None else Some(Group(Put(current.entries, path[0], updated.value)))
  }

  /** `setNestedValue(obj, path, value)` on a fresh copy of `obj`; `None`
      is the TypeError thrown when the path does not lead to an object.
      An empty path writes the key "undefined". */
  function SetNestedValue(obj: Node, path: seq<string>, value: string): (r: Option<Node>)
    ensures r.Some? ==> r.value.Group?
    ensures !obj.Group? ==> r.None?
  {
    if path == [] then SetKey(obj, "undefined", value) else SetAt(obj, path, value)
  }

  /** Reading back a path just written gives the value written. */
  lemma {:induction false} GetAfterSet(obj: Node, path: seq<string>, value: string)
    requires |path| >= 1 && SetNestedValue(obj, path, value).Some?
    ensures Get(Found(SetNestedValue(obj, path, value).value), path) == Found(Leaf(value))
    decreases |path|
  {
    var updated := SetNestedValue(obj, path, value).value;
    FindPut(obj.entries, path[0], if |path| == 1 then Leaf(value) else SetAt(Access(Found(obj), path[0]).node, path[1..], value).value, path[0]);
    if |path| > 1 {
      var child := Access(Found(obj), path[0]).node;
      GetAfterSet(child, path[1..], value);
    }
  }

  /** Every path that parts from the written one keeps its old value. */
  lemma {:induction false} SetLeavesOthers(obj: Node, path: seq<string>, value: string, other: seq<string>, i: nat)
    requires |path| >= 1 && SetNestedValue(obj, path, value).Some?
    requires i < |path| && i < |other| && other[..i] == path[..i] && other[i] != path[i]
    ensures Get(Found(SetNestedValue(obj, path, value).value), other) == Get(Found(obj), other)
    decreases i
  {
    var written := if |path| == 1 then Leaf(value) else SetAt(Access(Found(obj), path[0]).node, path[1..], value).value;
    FindPut(obj.entries, path[0], written, other[0]);
    if i > 0 {
      assert other[0] == other[..i][0];
      var child := Access(Found(obj), path[0]).node;
      assert other[1..][..i - 1] == other[..i][1..] && path[1..][..i - 1] == path[..i][1..];
      SetLeavesOthers(child, path[1..], value, other[1..], i - 1);
    }
  }

  /** The write succeeds exactly when the path without its last key reads
      an object. */
  lemma {:induction false} SetSucceeds(obj: Node, path: seq<string>, value: string)
    requires |path| >= 1
    ensures SetNestedValue(obj, path, value).Some? <==>
      (Get(Found(obj), path[..|path| - 1]).Found? && Get(Found(obj), path[..|path| - 1]).node.Group?)
    decreases |path|
  {
    if |path| > 1 {
      var child := Access(Found(obj), path[0]);
      assert path[..|path| - 1][0] == path[0];
      assert path[..|path| - 1][1..] == path[1..][..|path| - 2];
      if child.Found? {
        SetSucceeds(child.node, path[1..], value);
      } else {
        GetUndefined(child, path[1..][..|path| - 2]);
      }
    }
  }

  /** Nothing is ever found below `undefined`. */
  lemma {:induction false} GetUndefined(current: Lookup, path: seq<string>)
    requires !current.Found?
    ensures !Get(current, path).Found?
    decreases |path|
  {
    if path != [] {
      GetUndefined(Access(current, path[0]), path[1..]);
    }
  }

  /** The leaves listed for the settings screen are where the paths lead. */
  lemma {:induction false} LeafPathsLead(es: Entries, k: nat)
    requires WellFormed(Group(es)) && k < |Leaves(es)|
    ensures Get(Found(Group(es)), Leaves(es)[k].0) == Found(Leaf(Leaves(es)[k].1))
    decreases es, 1
  {
    var init, last := es[..|es| - 1], es[|es| - 1];
    var ls := Leaves(init);
    assert Leaves(es) == ls + LeavesOf(last);
    WellFormedInit(es);
    assert es == init + [last];
    var p := Leaves(es)[k].0;
    if k < |ls| {
      LeafPathsLead(init, k);
      LeafKeyIn(init, k);
      FindFront(init, [last], p[0]);
      assert [p[0]] + p[1..] == p;
    } else {
      assert Leaves(es)[k] == LeavesOf(last)[k - |ls|];
      LeafOfPathLeads(last, k - |ls|);
      FindFront(init, [last], last.0);
    }
  }

  lemma {:induction false} LeafOfPathLeads(e: (string, Node), k: nat)
    requires WellFormed(e.1) && k < |LeavesOf(e)|
    ensures Get(Found(e.1), LeavesOf(e)[k].0[1..]) == Found(Leaf(LeavesOf(e)[k].1))
    ensures LeavesOf(e)[k].0 != [] && LeavesOf(e)[k].0[0] == e.0
    decreases e, 0
  {
    match e.1
    case Leaf(v) =>
    case Group(sub) =>
      LeafPathsLead(sub, k);
      assert ([e.0] + Leaves(sub)[k].0)[1..] == Leaves(sub)[k].0;
  }

  lemma {:induction false} FindFront<V>(a: seq<(string, V)>, b: seq<(string, V)>, key: string)
    ensures Find(a + b, key) == if key in KeysOf(a) then Find(a, key) else Find(b, key)
  {
    if a != [] {
      assert (a + b)[1..] == a[1..] + b;
      assert KeysOf(a) == [a[0].0] + KeysOf(a[1..]);
      FindFront(a[1..], b, key);
    } else {
      assert a + b == b;
    }
  }

  /** Each leaf path starts with a key of the object. */
  lemma {:induction false} LeafKeyIn(es: Entries, k: nat)
    requires k < |Leaves(es)|
    ensures Leaves(es)[k].0 != [] && Leaves(es)[k].0[0] in KeysOf(es)
    decreases es, 1
  {
    var init, last := es[..|es| - 1], es[|es| - 1];
    var ls := Leaves(init);
    assert KeysOf(es) == KeysOf(init) + [last.0];
    if k < |ls| {
      LeafKeyIn(init, k);
    } else {
      assert Leaves(es)[k] == LeavesOf(last)[k - |ls|];
      LeafOfKey(last, k - |ls|);
    }
  }

  lemma LeafOfKey(e: (string, Node), k: nat)
    requires k < |LeavesOf(e)|
    ensures LeavesOf(e)[k].0 != [] && LeavesOf(e)[k].0[0] == e.0
  {
  }

  lemma WellFormedInit(es: Entries)
    requires es != [] && WellFormed(Group(es))
    ensures WellFormed(Group(es[..|es| - 1])) && WellFormed(es[|es| - 1].1)
    ensures es[|es| - 1].0 !in KeysOf(es[..|es| - 1])
  {
    var init := es[..|es| - 1];
    assert es == init + [es[|es| - 1]];
    DistinctKeysParts(init, [es[|es| - 1]]);
    var ks := KeysOf(es);
    forall i | 0 <= i < |init| ensures KeysOf(init)[i] != es[|es| - 1].0 {
      assert ks[i] == KeysOf(init)[i] && ks[|es| - 1] == es[|es| - 1].0;
    }
  }

  /** Keys are unique within every object. */
  predicate WellFormed(n: Node) {
    match n
    case Leaf(_) => true
    case Group(es) => NoDuplicates(KeysOf(es)) && forall i :: 0 <= i < |es| ==> WellFormed(es[i].1)
  }

  /** Every field of the settings screen reads back, by its path, the value
      it shows. */
  lemma FieldPathsRead(values: Entries, k: nat)
    requires WellFormed(Group(values)) && k < |Fields(values, [])|
    ensures Get(Found(Group(values)), Fields(values, [])[k].path) == Found(Leaf(Fields(values, [])[k].currentValue))
  {
    FieldsFollowLeaves(values, []);
    assert Describes(Fields(values, [])[k], Leaves(values)[k], []);
    assert [] + Leaves(values)[k].0 == Leaves(values)[k].0;
    LeafPathsLead(values, k);
  }

  // ----- createCustomTheme and getThemeById -----

  /** `createCustomTheme(basedOn)`: a copy of the base values under the
      custom identity. */
  function CreateCustomTheme(basedOn: AppTheme): (t: AppTheme)
    ensures t.id == "custom" && t.name == "Custom" && t.isCustom
    ensures Leaves(t.values) == Leaves(basedOn.values)
  {
    AppTheme("custom", "Custom", true, basedOn.values)
  }

  /** A custom theme produces the same CSS as the theme it copies. */
  lemma CustomSameCss(basedOn: AppTheme)
    ensures GenerateCSSVariables(CreateCustomTheme(basedOn)) == GenerateCSSVariables(basedOn)
  {
  }

  /** `getThemeById(id)` over the preset list; `None` is `undefined`. */
  function GetThemeById(presets: seq<AppTheme>, id: string): (r: Option<AppTheme>)
    ensures r.Some? <==> exists i :: 0 <= i < |presets| && presets[i].id == id
    ensures r.Some? ==>
      r.value.id == id &&
      (exists i :: 0 <= i < |presets| && presets[i] == r.value && forall j :: 0 <= j < i ==> presets[j].id != id)
  {
    if presets == [] then None
    else if presets[0].id == id then Some(presets[0])
    else
      var r := GetThemeById(presets[1..], id);
      assert forall i :: 1 <= i < |presets| ==> presets[i] == presets[1..][i - 1];
      r
  }

  /** A key with no capitals and no white space is shown capitalised. */
  lemma PlainKeyLabel(key: string)
    requires forall i :: 0 <= i < |key| ==> !('A' <= key[i] <= 'Z') && !IsSpace(key[i])
    ensures Label(key) == Capitalized(key)
  {
    NoCapitals(key);
    var c := Capitalized(key);
    assert c == [] || !IsSpace(c[0]);
    assert TrimStart(c) == c;
    assert c == [] || !IsSpace(c[|c| - 1]);
    assert TrimEnd(c) == c;
  }

  lemma {:induction false} NoCapitals(s: string)
    requires forall i :: 0 <= i < |s| ==> !('A' <= s[i] <= 'Z')
    ensures SpaceBeforeCapitals(s) == s
  {
    if s != [] {
      NoCapitals(s[1..]);
    }
  }
}

/** The structure statistics of the JSON formatter (ui/tools/json_formatter.py):
    `get_json_stats` walks a loaded JSON value and counts objects, arrays,
    strings, numbers, booleans and nulls, and measures the nesting depth;
    `validate_json` shows them for the text in the editor. */
module JsonFormatter {
  import opened StringOps

  /** A value as `json.loads` returns it: dicts, lists, str, int, float, bool, None. */
  datatype Json =
    | JObject(members: seq<Member>)
    | JArray(items: seq<Json>)
    | JString(text: string)
    | JInt(i: int)
    | JFloat(f: real)
    | JBool(b: bool)
    | JNull

  datatype Member = Member(key: string, value: Json)

  /** The dict `get_json_stats` returns. */
  datatype Stats = Stats(
    objects: nat, arrays: nat, strings: nat, numbers: nat,
    booleans: nat, nulls: nat, depth: nat)

  // ---------------------------------------------------------------------------
  // A reference description: what each node of the tree is, counted directly

  /** The JSON type of a node, booleans being their own type. */
  datatype Kind = KObject | KArray | KString | KNumber | KBool | KNull

  function KindOf(v: Json): Kind {
    match v
    case JObject(_) => KObject
    case JArray(_) => KArray
    case JString(_) => KString
    case JInt(_) => KNumber
    case JFloat(_) => KNumber
    case JBool(_) => KBool
    case JNull => KNull
  }

  /** Number of nodes of kind `k` in the tree `v`, `v` itself included. */
  function CountKind(v: Json, k: Kind): nat {
    (if KindOf(v) == k then 1 else 0)
    + match v
      case JObject(ms) => CountKindMembers(ms, k)
      case JArray(vs) => CountKindItems(vs, k)
      case _ => 0
  }

  function CountKindMembers(ms: seq<Member>, k: Kind): nat {
    if ms == [] then 0
    else CountKindMembers(ms[..|ms| - 1], k) + CountKind(ms[|ms| - 1].value, k)
  }

  function CountKindItems(vs: seq<Json>, k: Kind): nat {
    if vs == [] then 0
    else CountKindItems(vs[..|vs| - 1], k) + CountKind(vs[|vs| - 1], k)
  }

  /** Number of object keys anywhere in the tree. */
  function KeyCount(v: Json): nat {
    match v
    case JObject(ms) => |ms| + KeyCountMembers(ms)
    case JArray(vs) => KeyCountItems(vs)
    case _ => 0
  }

  function KeyCountMembers(ms: seq<Member>): nat {
    if ms == [] then 0 else KeyCountMembers(ms[..|ms| - 1]) + KeyCount(ms[|ms| - 1].value)
  }

  function KeyCountItems(vs: seq<Json>): nat {
    if vs == [] then 0 else KeyCountItems(vs[..|vs| - 1]) + KeyCount(vs[|vs| - 1])
  }

  /** The height of the tree: 0 for a scalar or an empty container, otherwise
      one more than the highest child. */
  function Height(v: Json): nat {
    match v
    case JObject(ms) => if ms == [] then 0 else 1 + MaxHeightMembers(ms)
    case JArray(vs) => if vs == [] then 0 else 1 + MaxHeightItems(vs)
    case _ => 0
  }

  function MaxHeightMembers(ms: seq<Member>): nat {
    if ms == [] then 0
    else Max(MaxHeightMembers(ms[..|ms| - 1]), Height(ms[|ms| - 1].value))
  }

  function MaxHeightItems(vs: seq<Json>): nat {
    if vs == [] then 0 else Max(MaxHeightItems(vs[..|vs| - 1]), Height(vs[|vs| - 1]))
  }

  function Max(a: nat, b: nat): nat {
    if a < b then b else a
  }

  /** What the statistics of `v`, walked from depth `d`, come to: objects,
      arrays and nulls are counted once each; strings count string values and
      every key; numbers count ints, floats and also booleans, which Python's
      `isinstance(x, int)` takes for ints, so no boolean is ever counted as one;
      the depth is `d` plus the height of the tree. */
  function Expected(v: Json, d: nat): Stats {
    Stats(
      CountKind(v, KObject), CountKind(v, KArray),
      CountKind(v, KString) + KeyCount(v),
      CountKind(v, KNumber) + CountKind(v, KBool),
      0, CountKind(v, KNull), d + Height(v))
  }

  // ---------------------------------------------------------------------------
  // get_json_stats

  /** `get_json_stats(data, depth)`: a recursive walk whose loops add up the
      children's counts and keep the deepest child's depth. */
  method GetJsonStats(data: Json, depth: nat) returns (stats: Stats)
    ensures stats == Expected(data, depth)
    decreases data, 1
  {
    match data
    case JObject(ms) =>
      stats := ObjectStats(ms, depth);
    case JArray(vs) =>
      stats := ArrayStats(vs, depth);
    case JString(_) =>
      stats := Stats(0, 0, 1, 0, 0, 0, depth);
    case JInt(_) =>
      stats := Stats(0, 0, 0, 1, 0, 0, depth);
    case JFloat(_) =>
      stats := Stats(0, 0, 0, 1, 0, 0, depth);
    case JBool(_) =>
      // isinstance(True, (int, float)) holds: the numbers branch is taken
      stats := Stats(0, 0, 0, 1, 0, 0, depth);
    case JNull =>
      stats := Stats(0, 0, 0, 0, 0, 1, depth);
  }

  /** The dict branch: one object, one string per key, and each value's counts. */
  method ObjectStats(ms: seq<Member>, depth: nat) returns (stats: Stats)
    ensures stats == Expected(JObject(ms), depth)
    decreases ms, 0
  {
    stats := Stats(1, 0, 0, 0, 0, 0, depth);
    var maxDepth := depth;
    var i := 0;
    while i < |ms|
      invariant 0 <= i <= |ms|
      invariant stats.objects == 1 + CountKindMembers(ms[..i], KObject)
      invariant stats.arrays == CountKindMembers(ms[..i], KArray)
      invariant stats.strings == i + CountKindMembers(ms[..i], KString) + KeyCountMembers(ms[..i])
      invariant stats.numbers == CountKindMembers(ms[..i], KNumber) + CountKindMembers(ms[..i], KBool)
      invariant stats.booleans == 0
      invariant stats.nulls == CountKindMembers(ms[..i], KNull)
      invariant stats.depth == depth
      invariant maxDepth == if i == 0 then depth else depth + 1 + MaxHeightMembers(ms[..i])
    {
      assert ms[i] in ms;
      var child := GetJsonStats(ms[i].value, depth + 1);
      MembersStep(ms, i);
      stats := stats.(strings := stats.strings + 1);
      stats := Add(stats, child);
      maxDepth := if maxDepth < child.depth then child.depth else maxDepth;
      i := i + 1;
    }
    assert ms[..|ms|] == ms;
    stats := stats.(depth := maxDepth);
  }

  /** The list branch: one array, and each item's counts. */
  method ArrayStats(vs: seq<Json>, depth: nat) returns (stats: Stats)
    ensures stats == Expected(JArray(vs), depth)
    decreases vs, 0
  {
    stats := Stats(0, 1, 0, 0, 0, 0, depth);
    var maxDepth := depth;
    var i := 0;
    while i < |vs|
      invariant 0 <= i <= |vs|
      invariant stats.objects == CountKindItems(vs[..i], KObject)
      invariant stats.arrays == 1 + CountKindItems(vs[..i], KArray)
      invariant stats.strings == CountKindItems(vs[..i], KString) + KeyCountItems(vs[..i])
      invariant stats.numbers == CountKindItems(vs[..i], KNumber) + CountKindItems(vs[..i], KBool)
      invariant stats.booleans == 0
      invariant stats.nulls == CountKindItems(vs[..i], KNull)
      invariant stats.depth == depth
      invariant maxDepth == if i == 0 then depth else depth + 1 + MaxHeightItems(vs[..i])
    {
      var child := GetJsonStats(vs[i], depth + 1);
      ItemsStep(vs, i);
      stats := Add(stats, child);
      maxDepth := if maxDepth < child.depth then child.depth else maxDepth;
      i := i + 1;
    }
    assert vs[..|vs|] == vs;
    stats := stats.(depth := maxDepth);
  }

  /** The counts over one more member: the previous ones and the new value's. */
  lemma MembersStep(ms: seq<Member>, i: nat)
    requires i < |ms|
    ensures forall k :: CountKindMembers(ms[..i + 1], k) == CountKindMembers(ms[..i], k) + CountKind(ms[i].value, k)
    ensures KeyCountMembers(ms[..i + 1]) == KeyCountMembers(ms[..i]) + KeyCount(ms[i].value)
    ensures MaxHeightMembers(ms[..i + 1]) == Max(MaxHeightMembers(ms[..i]), Height(ms[i].value))
  {
    assert ms[..i + 1][..i] == ms[..i];
  }

  /** The counts over one more item: the previous ones and the new item's. */
  lemma ItemsStep(vs: seq<Json>, i: nat)
    requires i < |vs|
    ensures forall k :: CountKindItems(vs[..i + 1], k) == CountKindItems(vs[..i], k) + CountKind(vs[i], k)
    ensures KeyCountItems(vs[..i + 1]) == KeyCountItems(vs[..i]) + KeyCount(vs[i])
    ensures MaxHeightItems(vs[..i + 1]) == Max(MaxHeightItems(vs[..i]), Height(vs[i]))
  {
    assert vs[..i + 1][..i] == vs[..i];
  }

  /** `stats[k] += child_stats[k]` for every key but 'depth'. */
  function Add(s: Stats, child: Stats): (r: Stats)
    ensures r.depth == s.depth
    ensures r.objects + r.arrays + r.strings + r.numbers + r.booleans + r.nulls
            == s.objects + s.arrays + s.strings + s.numbers + s.booleans + s.nulls
               + child.objects + child.arrays + child.strings + child.numbers
               + child.booleans + child.nulls
  {
    Stats(s.objects + child.objects, s.arrays + child.arrays, s.strings + child.strings,
          s.numbers + child.numbers, s.booleans + child.booleans, s.nulls + child.nulls,
          s.depth)
  }

  // ---------------------------------------------------------------------------
  // Properties of the statistics

  /** A scalar counts once, under its own heading, at the starting depth. */
  lemma ScalarStats(v: Json, d: nat)
    requires !v.JObject? && !v.JArray?
    ensures var s := Expected(v, d);
            s.objects + s.arrays + s.strings + s.numbers + s.booleans + s.nulls == 1
            && s.depth == d
            && (v.JString? <==> s.strings == 1)
            && (v.JNull? <==> s.nulls == 1)
            && (v.JInt? || v.JFloat? || v.JBool? <==> s.numbers == 1)
  {
  }

  /** Every key of an object counts as a string, so an object of n scalar
      string values reports 2n strings. */
  lemma ObjectOfStrings(ms: seq<Member>, d: nat)
    requires forall i :: 0 <= i < |ms| ==> ms[i].value.JString?
    ensures Expected(JObject(ms), d).strings == 2 * |ms|
    ensures Expected(JObject(ms), d).objects == 1
    ensures Expected(JObject(ms), d).depth == if ms == [] then d else d + 1
  {
    StringMembers(ms);
  }

  lemma {:induction false} StringMembers(ms: seq<Member>)
    requires forall i :: 0 <= i < |ms| ==> ms[i].value.JString?
    ensures CountKindMembers(ms, KString) == |ms|
    ensures CountKindMembers(ms, KObject) == 0
    ensures KeyCountMembers(ms) == 0
    ensures MaxHeightMembers(ms) == 0
  {
    if ms != [] {
      StringMembers(ms[..|ms| - 1]);
    }
  }

  /** The depth is at least the starting depth, and grows by exactly one per
      level of nesting: wrapping a value in a one-element list adds one. */
  lemma WrappingAddsOneLevel(v: Json, d: nat)
    ensures Expected(JArray([v]), d).depth == Expected(v, d).depth + 1
    ensures Expected(JArray([v]), d).arrays == Expected(v, d).arrays + 1
    ensures Expected(JArray([v]), d).numbers == Expected(v, d).numbers
  {
    assert [v][..0] == [];
    assert MaxHeightItems([v]) == Height(v);
    assert CountKindItems([v], KArray) == CountKind(v, KArray);
    assert CountKindItems([v], KNumber) == CountKind(v, KNumber);
    assert CountKindItems([v], KBool) == CountKind(v, KBool);
  }

  /** A boolean is reported as a number and never as a boolean. */
  lemma BooleansCountAsNumbers(b: bool, d: nat)
    ensures Expected(JBool(b), d).numbers == 1 && Expected(JBool(b), d).booleans == 0
  {
  }

  // ---------------------------------------------------------------------------
  // validate_json

  /** What `json.loads` made of the text. */
  datatype Loaded = Loaded(value: Json) | LoadError(message: string)

  class JsonFormatter {
    var text: string
    var status: string

    constructor ()
      ensures text == "" && status == ""
    {
      text := "";
      status := "";
    }

    /** `validate_json`, with `load` standing for `json.loads`: an empty editor
        only prompts for input; otherwise the statistics of the loaded value
        are returned, or the loader's error is shown. */
    method ValidateJson(load: string -> Loaded) returns (report: Option<Stats>)
      modifies this
      ensures text == old(text)
      ensures old(text) == "" ==> report == None && status == "请先输入JSON数据"
      ensures old(text) != "" && load(old(text)).LoadError? ==>
                report == None && status == "验证失败: " + load(old(text)).message
      ensures old(text) != "" && load(old(text)).Loaded? ==>
                report == Some(Expected(load(old(text)).value, 0)) && status == "JSON有效"
    {
      if text == "" {
        status := "请先输入JSON数据";
        return None;
      }
      status := "正在验证...";
      match load(text)
      case LoadError(msg) =>
        status := "验证失败: " + msg;
        report := None;
      case Loaded(data) =>
        var stats := GetJsonStats(data, 0);
        status := "JSON有效";
        report := Some(stats);
    }
  }
}

/** The batch renamer (ui/tools/file_renamer.py): the selected files are
    renamed one after the other by a rule in which `{index}`, `{name}` and
    `{ext}` stand for the file's 1-based position, its name without the
    extension and its extension. Paths follow Python's `posixpath`. */
module FileRenamer {
  import opened StringOps

  // ---------------------------------------------------------------------------
  // posixpath

  /** Index of the last `c` in `s`, -1 when there is none (Python `s.rfind(c)`). */
  function RFind(s: string, c: char): (r: int)
    ensures -1 <= r < |s|
    ensures r >= 0 ==> s[r] == c
    ensures forall k :: r < k < |s| ==> s[k] != c
    decreases |s|
  {
    if s == [] then -1
    else if s[|s| - 1] == c then |s| - 1
    else RFind(s[..|s| - 1], c)
  }

  /** `os.path.basename`: what follows the last '/'. */
  function Basename(p: string): (r: string)
    ensures '/' !in r
    ensures EndsWith(p, r)
    ensures |r| == |p| || p[|p| - |r| - 1] == '/'
  {
    var i := RFind(p, '/') + 1;
    assert forall k :: 0 <= k < |p[i..]| ==> p[i..][k] == p[i + k];
    p[i..]
  }

  predicate AllSlashes(s: string) {
    forall i :: 0 <= i < |s| ==> s[i] == '/'
  }

  /** Python `s.rstrip('/')`. */
  function TrimSlashes(s: string): (r: string)
    ensures r == [] || r[|r| - 1] != '/'
    ensures |r| <= |s| && r == s[..|r|]
    ensures AllSlashes(s[|r|..])
    decreases |s|
  {
    if s != [] && s[|s| - 1] == '/' then
      var r := TrimSlashes(s[..|s| - 1]);
      assert s[|r|..] == s[..|s| - 1][|r|..] + ['/'];
      r
    else s
  }

  /** `os.path.dirname`: everything up to the last '/', without the trailing
      slashes unless it is made of slashes only. */
  function Dirname(p: string): string {
    var head := p[..RFind(p, '/') + 1];
    if head != "" && !AllSlashes(head) then TrimSlashes(head) else head
  }

  /** `os.path.join(a, b)` for two parts. */
  function PathJoin(a: string, b: string): string {
    if StartsWith(b, "/") then b
    else if a == "" || EndsWith(a, "/") then a + b
    else a + "/" + b
  }

  /** `os.path.splitext` on a file name without '/': the extension starts at
      the last '.', unless only dots come before that '.'. */
  function SplitExt(f: string): (r: (string, string))
    ensures r.0 + r.1 == f
  {
    var d := RFind(f, '.');
    if d > 0 && exists k :: 0 <= k < d && f[k] != '.' then (f[..d], f[d..])
    else (f, "")
  }

  // ---------------------------------------------------------------------------
  // The new name

  /** The three `replace` passes, in this order. */
  function Placeholders(index: nat, name: string, ext: string): seq<(string, string)> {
    [("{index}", Decimal(index)), ("{name}", name), ("{ext}", ext)]
  }

  /** The rule after the three passes, with the extension appended unless the
      result already ends with it. */
  function NewName(rule: string, index: nat, name: string, ext: string): string {
    var c := ApplyRules(rule, Placeholders(index, name, ext));
    if EndsWith(c, ext) then c else c + ext
  }

  /** The new name of the file named `f` when it is the `index`-th file. */
  function RenamedFile(f: string, index: nat, rule: string): string {
    var parts := SplitExt(f);
    NewName(rule, index, parts.0, parts.1)
  }

  /** The path the file at `path` is renamed to when it is the `index`-th file. */
  function TargetPath(path: string, index: nat, rule: string): string {
    PathJoin(Dirname(path), RenamedFile(Basename(path), index, rule))
  }

  /** The `k`-th rename (from 0) of a selection: the file and its target. */
  predicate RenamedAs(files: seq<string>, rule: string, renames: seq<(string, string)>, k: nat)
    requires k < |files| && k < |renames|
  {
    renames[k] == (files[k], TargetPath(files[k], k + 1, rule))
  }

  // ---------------------------------------------------------------------------
  // Properties of the new name

  /** The new name always ends with the original extension. */
  lemma NewNameKeepsExtension(rule: string, index: nat, name: string, ext: string)
    ensures EndsWith(NewName(rule, index, name, ext), ext)
  {
    var c := ApplyRules(rule, Placeholders(index, name, ext));
    if !EndsWith(c, ext) {
      assert (c + ext)[|c + ext| - |ext|..] == ext;
    }
  }

  /** A rule without placeholders is the new name, with the extension added
      when the rule does not already end with it. */
  lemma PlainRule(rule: string, index: nat, name: string, ext: string)
    requires !IsSubstring("{index}", rule) && !IsSubstring("{name}", rule) && !IsSubstring("{ext}", rule)
    ensures NewName(rule, index, name, ext) == if EndsWith(rule, ext) then rule else rule + ext
  {
    var p := Placeholders(index, name, ext);
    assert p[1..] == [("{name}", name), ("{ext}", ext)] && p[1..][1..] == [("{ext}", ext)];
    assert p[1..][1..][1..] == [];
    assert ApplyRules(rule, p[1..][1..][1..]) == rule;
    assert ApplyRules(rule, p[1..][1..]) == rule;
    assert ApplyRules(rule, p[1..]) == rule;
  }

  /** The passes run one after the other, so a "{ext}" that the file's own
      name brings in is substituted too. */
  lemma NameCanCarryPlaceholders()
    ensures NewName("{name}", 1, "x{ext}", ".txt") == "x.txt"
  {
    var p := Placeholders(1, "x{ext}", ".txt");
    assert Replace("{name}", "{index}", Decimal(1)) == "{name}";
    assert Replace("{name}", "{name}", "x{ext}") == "x{ext}" by {
      assert "{name}"[|"{name}"|..] == "";
    }
    assert "x{ext}"[..5] != "{ext}" by {
      assert "x{ext}"[..5][0] == 'x';
    }
    assert "x{ext}"[1..] == "{ext}" && "{ext}"[5..] == "";
    assert Replace("{ext}", "{ext}", ".txt") == ".txt";
    assert Replace("x{ext}", "{ext}", ".txt") == "x.txt";
    assert p[1..][1..][1..] == [];
  }

  /** A rule without '/' gives a name without '/', whatever the file. */
  lemma NewNameHasNoSlash(rule: string, index: nat, name: string, ext: string)
    requires '/' !in rule && '/' !in name && '/' !in ext
    ensures '/' !in NewName(rule, index, name, ext)
  {
    assert '/' !in Decimal(index);
    ApplyRulesAvoidsChar(rule, Placeholders(index, name, ext), '/');
  }

  /** Name and extension come from the same file name, and the extension is
      empty or a '.' followed by no further '.'. */
  lemma SplitExtShape(f: string)
    ensures var r := SplitExt(f);
            r.1 == "" || (r.1[0] == '.' && '.' !in r.1[1..] && r.0 != "")
  {
    var d := RFind(f, '.');
    var r := SplitExt(f);
    if r.1 != "" {
      assert r.1 == f[d..];
      forall k | 0 <= k < |r.1[1..]|
        ensures r.1[1..][k] != '.'
      {
        assert r.1[1..][k] == f[d + 1 + k];
      }
    }
  }

  /** A name whose only dots lead it, such as ".bashrc", has no extension. */
  lemma LeadingDotsOnly(f: string, n: nat)
    requires n <= |f| && (forall k :: 0 <= k < n ==> f[k] == '.') && '.' !in f[n..]
    ensures SplitExt(f) == (f, "")
  {
  }

  /** A name with a character other than '.' before its last '.' splits at
      that '.': the extension is the last '.' and what follows it. */
  lemma ExtensionFromLastDot(name: string, tail: string)
    requires '.' !in tail && exists k :: 0 <= k < |name| && name[k] != '.'
    ensures SplitExt(name + "." + tail) == (name, "." + tail)
  {
    var f := name + "." + tail;
    var d := RFind(f, '.');
    assert f[|name|] == '.';
    assert d == |name|;
    var k :| 0 <= k < |name| && name[k] != '.';
    assert f[k] == name[k];
    assert f[..d] == name && f[d..] == "." + tail;
  }

  lemma DotfileExample()
    ensures SplitExt(".bashrc") == (".bashrc", "")
    ensures SplitExt("a.tar.gz") == ("a.tar", ".gz")
  {
    LeadingDotsOnly(".bashrc", 1);
    assert RFind("a.tar.gz", '.') == 5;
    assert "a.tar.gz"[0] != '.';
    assert "a.tar.gz"[..5] == "a.tar" && "a.tar.gz"[5..] == ".gz";
  }

  /** Joining a name without '/' to a file's directory gives a path in that
      directory whose last component is the name. */
  lemma JoinStaysInDirectory(p: string, n: string)
    requires '/' !in n
    ensures Dirname(PathJoin(Dirname(p), n)) == Dirname(p)
    ensures Basename(PathJoin(Dirname(p), n)) == n
  {
    var d := Dirname(p);
    var head := p[..RFind(p, '/') + 1];
    assert !StartsWith(n, "/") by {
      if n != [] {
        assert n[..1][0] == n[0];
      }
    }
    var q := PathJoin(d, n);
    if d == "" {
      assert q == n;
      assert RFind(n, '/') == -1;
    } else if EndsWith(d, "/") {
      assert q == d + n;
      assert AllSlashes(d);
      RFindPastSuffix(d, n, '/');
      assert q[..|d|] == d;
    } else {
      assert q == d + "/" + n;
      RFindPastSuffix(d + "/", n, '/');
      assert q[..|d| + 1] == d + "/";
      assert !AllSlashes(d + "/") by {
        assert (d + "/")[|d| - 1] == d[|d| - 1];
      }
      assert TrimSlashes(d + "/") == TrimSlashes(d);
    }
  }

  /** The last '/' of `a + b` lies in `a` when `b` has none and `a` ends in one. */
  lemma RFindPastSuffix(a: string, b: string, c: char)
    requires c !in b && a != [] && a[|a| - 1] == c
    ensures RFind(a + b, c) == |a| - 1
    decreases |b|
  {
    if b == [] {
      assert a + b == a;
    } else {
      assert (a + b)[..|a + b| - 1] == a + b[..|b| - 1];
      assert (a + b)[|a + b| - 1] == b[|b| - 1];
      RFindPastSuffix(a, b[..|b| - 1], c);
    }
  }

  /** With a rule free of '/', every file is renamed inside its own directory,
      to the name the rule makes of it. */
  lemma TargetStaysInDirectory(path: string, index: nat, rule: string)
    requires '/' !in rule
    ensures Dirname(TargetPath(path, index, rule)) == Dirname(path)
    ensures var parts := SplitExt(Basename(path));
            Basename(TargetPath(path, index, rule)) == NewName(rule, index, parts.0, parts.1)
  {
    var f := Basename(path);
    var parts := SplitExt(f);
    assert '/' !in parts.0 && '/' !in parts.1 by {
      assert forall k :: 0 <= k < |parts.0| ==> parts.0[k] == f[k];
      assert forall k :: 0 <= k < |parts.1| ==> parts.1[k] == f[|parts.0| + k];
    }
    NewNameHasNoSlash(rule, index, parts.0, parts.1);
    JoinStaysInDirectory(path, NewName(rule, index, parts.0, parts.1));
  }

  /** A replacement pass leaves the first character alone when no occurrence
      of the pattern can start there. */
  lemma ReplaceKeepsHead(s: string, pat: string, rep: string)
    requires pat != "" && s != [] && s[0] != pat[0]
    ensures Replace(s, pat, rep) != [] && Replace(s, pat, rep)[0] == s[0]
  {
    if |s| >= |pat| {
      assert s[..|pat|][0] == s[0];
    }
  }

  lemma {:induction false} ApplyRulesKeepsHead(s: string, rules: seq<(string, string)>)
    requires s != [] && forall k :: 0 <= k < |rules| ==> rules[k].0 != "" && rules[k].0[0] != s[0]
    ensures ApplyRules(s, rules) != [] && ApplyRules(s, rules)[0] == s[0]
    decreases |rules|
  {
    if rules != [] {
      ReplaceKeepsHead(s, rules[0].0, rules[0].1);
      ApplyRulesKeepsHead(Replace(s, rules[0].0, rules[0].1), rules[1..]);
    }
  }

  /** A rule starting with '/' is an absolute path: `os.path.join` drops the
      file's directory, and every file goes to the name the rule makes. */
  lemma AbsoluteRuleLeavesDirectory(path: string, index: nat, rule: string)
    requires rule != [] && rule[0] == '/'
    ensures var parts := SplitExt(Basename(path));
            TargetPath(path, index, rule) == NewName(rule, index, parts.0, parts.1)
  {
    var parts := SplitExt(Basename(path));
    var p := Placeholders(index, parts.0, parts.1);
    assert p[0].0[0] == '{' && p[1].0[0] == '{' && p[2].0[0] == '{';
    ApplyRulesKeepsHead(rule, p);
    var c := ApplyRules(rule, p);
    var n := NewName(rule, index, parts.0, parts.1);
    assert n == c || n == c + parts.1;
    assert n[..1] == "/" by {
      assert n[0] == c[0];
    }
  }

  /** Without placeholders a rule gives every file of one directory with the
      same extension the same target, whatever its name and position: the
      later renames go to a path an earlier one already used. */
  lemma RuleWithoutPlaceholdersCollides(p: string, q: string, i: nat, j: nat, rule: string)
    requires !IsSubstring("{index}", rule) && !IsSubstring("{name}", rule) && !IsSubstring("{ext}", rule)
    requires Dirname(p) == Dirname(q) && SplitExt(Basename(p)).1 == SplitExt(Basename(q)).1
    ensures TargetPath(p, i, rule) == TargetPath(q, j, rule)
  {
    var a := SplitExt(Basename(p));
    var b := SplitExt(Basename(q));
    PlainRule(rule, i, a.0, a.1);
    PlainRule(rule, j, b.0, b.1);
  }

  // ---------------------------------------------------------------------------
  // The dialog

  /** What `rename_files` reports. */
  datatype Outcome =
    | NoFilesSelected              // "请先选择文件"
    | NoRule                       // "请输入重命名规则"
    | Renamed(count: nat)          // "已重命名 {count} 个文件"
    | Failed(renamedBefore: nat)   // `os.rename` raised; earlier renames stay done

  /** The outcome `rename_files` reports for a selection and a rule, `done`
      being the number of files renamed before the loop stopped. */
  function Reported(files: seq<string>, rule: string, done: nat): (r: Outcome)
    ensures r.NoFilesSelected? <==> files == []
    ensures r.NoRule? <==> files != [] && rule == ""
    ensures r.Renamed? <==> files != [] && rule != "" && done == |files|
    ensures r.Renamed? ==> r.count == |files|
    ensures r.Failed? ==> r.renamedBefore == done
  {
    if files == [] then NoFilesSelected
    else if rule == "" then NoRule
    else if done == |files| then Renamed(done)
    else Failed(done)
  }

  class FileRenamer {
    var selectedFiles: seq<string>
    var fileList: seq<string>

    constructor ()
      ensures selectedFiles == [] && fileList == []
    {
      selectedFiles := [];
      fileList := [];
    }

    /** `select_files` with the files the dialog returned: a non-empty choice
        replaces the selection and lists the base names; cancelling keeps both. */
    method SelectFiles(files: seq<string>)
      modifies this
      ensures files == [] ==> selectedFiles == old(selectedFiles) && fileList == old(fileList)
      ensures files != [] ==> selectedFiles == files
      ensures files != [] ==> |fileList| == |files|
                              && forall i :: 0 <= i < |files| ==> fileList[i] == Basename(files[i])
    {
      if files != [] {
        selectedFiles := files;
        var names := [];
        var i := 0;
        while i < |files|
          invariant 0 <= i <= |files| && |names| == i
          invariant forall k :: 0 <= k < i ==> names[k] == Basename(files[k])
        {
          var name := Basename(files[i]);
          names := names + [name];
          i := i + 1;
        }
        fileList := names;
      }
    }

    /** `rename_files`, with `renameOk(src, dst)` telling whether `os.rename`
        succeeds. Returns the outcome and the renames carried out, in order. */
    method RenameFiles(rule: string, renameOk: (string, string) -> bool)
      returns (outcome: Outcome, renames: seq<(string, string)>)
      modifies this
      ensures outcome == Reported(old(selectedFiles), rule, |renames|)
      ensures old(selectedFiles) == [] || rule == "" ==> renames == []
      ensures |renames| <= |old(selectedFiles)|
      ensures renames == Planned(old(selectedFiles), Targets(rule), |renames|)
      ensures forall k :: 0 <= k < |renames| ==> renameOk(renames[k].0, renames[k].1)
      ensures outcome.Failed? ==>
                !renameOk(old(selectedFiles)[|renames|], Targets(rule)(old(selectedFiles)[|renames|], |renames| + 1))
      ensures outcome.Renamed? ==> selectedFiles == [] && fileList == []
      ensures !outcome.Renamed? ==> selectedFiles == old(selectedFiles) && fileList == old(fileList)
    {
      renames := [];
      if selectedFiles == [] {
        return NoFilesSelected, renames;
      }
      if rule == "" {
        return NoRule, renames;
      }
      renames := RenameEach(selectedFiles, Targets(rule), renameOk);
      if |renames| < |selectedFiles| {
        return Failed(|renames|), renames;
      }
      outcome := Renamed(|renames|);
      fileList := [];
      selectedFiles := [];
    }
  }

  /** `TargetPath` for one rule, as the function the rename loop applies. */
  function Targets(rule: string): (string, nat) -> string {
    (path: string, index: nat) => TargetPath(path, index, rule)
  }

  /** The first `n` renames of a selection when the i-th file (from 1) goes
      to `target(file, i)`. */
  function Planned(files: seq<string>, target: (string, nat) -> string, n: nat): (r: seq<(string, string)>)
    requires n <= |files|
    ensures |r| == n
  {
    if n == 0 then []
    else Planned(files, target, n - 1) + [(files[n - 1], target(files[n - 1], n))]
  }

  /** The `k`-th of the first `n` renames is the file at that place and its target. */
  lemma {:induction false} PlannedAt(files: seq<string>, target: (string, nat) -> string, n: nat, k: nat)
    requires k < n <= |files|
    ensures Planned(files, target, n)[k] == (files[k], target(files[k], k + 1))
  {
    if k != n - 1 {
      PlannedAt(files, target, n - 1, k);
    }
  }

  /** Under a rule, each of the first `n` renames is the file at that place
      and its target path. */
  lemma PlannedRenamesInOrder(files: seq<string>, rule: string, n: nat)
    requires n <= |files|
    ensures forall k :: 0 <= k < n ==> RenamedAs(files, rule, Planned(files, Targets(rule), n), k)
  {
    forall k | 0 <= k < n
      ensures RenamedAs(files, rule, Planned(files, Targets(rule), n), k)
    {
      PlannedAt(files, Targets(rule), n, k);
    }
  }

  /** The loop of `rename_files`: the files are renamed in order, the i-th
      (from 1) to its target path, until a rename fails or all are done; the
      renames carried out are returned, and `renamed_count` is their number. */
  method RenameEach(files: seq<string>, target: (string, nat) -> string, renameOk: (string, string) -> bool)
    returns (renames: seq<(string, string)>)
    ensures |renames| <= |files|
    ensures renames == Planned(files, target, |renames|)
    ensures forall k :: 0 <= k < |renames| ==> renameOk(renames[k].0, renames[k].1)
    ensures |renames| < |files| ==> !renameOk(files[|renames|], target(files[|renames|], |renames| + 1))
  {
    renames := [];
    var renamedCount := 0;
    var i := 0;
    while i < |files|
      invariant 0 <= i <= |files| && renamedCount == i
      invariant renames == Planned(files, target, i)
      invariant forall k :: 0 <= k < i ==> renameOk(renames[k].0, renames[k].1)
    {
      var path := files[i];
      var newPath := target(path, i + 1);
      if !renameOk(path, newPath) {
        break;
      }
      ghost var before := renames;
      renames := renames + [(path, newPath)];
      assert renames == Planned(files, target, i + 1);
      forall k | 0 <= k <= i
        ensures renameOk(renames[k].0, renames[k].1)
      {
        if k < i {
          assert renames[k] == before[k];
        }
      }
      renamedCount := renamedCount + 1;
      i := i + 1;
    }
  }
}

/** The main window's tool registry (ui/main_window.py): the categories and
    their tools become a tree of items, the tools get consecutive indices in
    category order, page 0 of the stacked widget is the welcome page and page
    i + 1 holds tool i; clicking an item either toggles it (no index) or shows
    the page of its tool. Widgets are values: a tree item is its text, the
    position of its parent, its user data and whether it is expanded; a page is
    the class name of the tool instance on it. */
module MainWindow {
  import opened StringOps

  /** One entry of `tool_categories`: the display name and the tool class's name. */
  datatype Tool = Tool(name: string, className: string)
  datatype Category = Category(name: string, tools: seq<Tool>)

  /** A `QTreeWidgetItem`: `parent` is the position of its parent item in the
      tree (none for a top-level item) and `data` its `UserRole` data. */
  datatype TreeItem = TreeItem(text: string, parent: Option<nat>, data: Option<nat>, expanded: bool)

  datatype Page = Welcome | ToolPage(className: string)

  /** The registry `ToolsApp.__init__` builds, in the dictionary's order. */
  const ToolCategories: seq<Category> := [
    Category("文件工具", [
      Tool("文件哈希计算", "HashCalculator"),
      Tool("文件重命名", "FileRenamer"),
      Tool("图片压缩", "ImageCompressor")]),
    Category("编码工具", [
      Tool("Base64编解码", "Base64Converter"),
      Tool("文本加密", "TextEncryptor"),
      Tool("二维码生成", "QRCodeGenerator"),
      Tool("URL缩短器", "URLShortener")]),
    Category("格式化工具", [
      Tool("JSON格式化", "JsonFormatter"),
      Tool("时间戳转换", "TimestampConverter"),
      Tool("文本差异比较", "TextDiff")]),
    Category("实用工具", [
      Tool("颜色选择器", "ColorPicker"),
      Tool("剪贴板工具", "ClipboardTool"),
      Tool("科学计算器", "Calculator"),
      Tool("天气查询", "WeatherChecker")])
  ]

  // ---------------------------------------------------------------------------
  // The flattened registry

  /** `tools_list`: every category's tools, one category after another. */
  function Flatten(cats: seq<Category>): seq<Tool> {
    if cats == [] then [] else Flatten(cats[..|cats| - 1]) + cats[|cats| - 1].tools
  }

  /** The category name of each tool of `Flatten(cats)`. */
  function Owners(cats: seq<Category>): (r: seq<string>)
    ensures |r| == |Flatten(cats)|
  {
    if cats == [] then []
    else
      var last := cats[|cats| - 1];
      Owners(cats[..|cats| - 1]) + seq(|last.tools|, _ => last.name)
  }

  function CategoryNames(cats: seq<Category>): set<string> {
    set k | 0 <= k < |cats| :: cats[k].name
  }

  function ClassNames(tools: seq<Tool>): set<string> {
    set k | 0 <= k < |tools| :: tools[k].className
  }

  /** The tool pages `init_tool_pages` adds, one per tool, in order. */
  function PagesOf(tools: seq<Tool>): (r: seq<Page>)
    ensures |r| == |tools|
    ensures forall i :: 0 <= i < |tools| ==> r[i] == ToolPage(tools[i].className)
  {
    seq(|tools|, i requires 0 <= i < |tools| => ToolPage(tools[i].className))
  }

  /** Adding one category appends its tools, each owned by it. */
  lemma FlattenStep(cats: seq<Category>, c: nat)
    requires c < |cats|
    ensures Flatten(cats[..c + 1]) == Flatten(cats[..c]) + cats[c].tools
    ensures Owners(cats[..c + 1]) == Owners(cats[..c]) + seq(|cats[c].tools|, _ => cats[c].name)
    ensures CategoryNames(cats[..c + 1]) == CategoryNames(cats[..c]) + {cats[c].name}
  {
    assert cats[..c + 1][..c] == cats[..c];
    var p := cats[..c + 1];
    assert CategoryNames(p) == CategoryNames(cats[..c]) + {cats[c].name} by {
      forall n | n in CategoryNames(p)
        ensures n in CategoryNames(cats[..c]) + {cats[c].name}
      {
        var k :| 0 <= k < |p| && p[k].name == n;
        if k < c {
          assert cats[..c][k] == p[k];
        }
      }
      forall n | n in CategoryNames(cats[..c])
        ensures n in CategoryNames(p)
      {
        var k :| 0 <= k < c && cats[..c][k].name == n;
        assert p[k] == cats[..c][k];
      }
      assert p[c].name == cats[c].name;
    }
  }

  /** Tool `j` of category `c` has the index that follows the tools of the
      categories before it, and that category for owner: the indices run
      0, 1, 2, … in category order and then tool order. */
  lemma {:induction false} FlattenConsecutive(cats: seq<Category>, c: nat, j: nat)
    requires c < |cats| && j < |cats[c].tools|
    ensures |Flatten(cats[..c])| + j < |Flatten(cats)|
    ensures Flatten(cats)[|Flatten(cats[..c])| + j] == cats[c].tools[j]
    ensures Owners(cats)[|Flatten(cats[..c])| + j] == cats[c].name
    decreases |cats|
  {
    var n := |cats| - 1;
    assert cats[..n] == cats[..|cats| - 1];
    if c == n {
      FlattenStep(cats, c);
      assert cats[..c + 1] == cats;
    } else {
      assert cats[..n][..c] == cats[..c];
      FlattenConsecutive(cats[..n], c, j);
    }
  }

  /** Adding one tool adds its page and its class name. */
  /** Every page number recorded in `inst` is below `bound`. */
  ghost predicate Bounded(inst: map<string, nat>, bound: nat) {
    forall n :: n in inst ==> inst[n] < bound
  }

  /** Recording `cls` at page `bound` adds `cls` to the names and keeps every page below `bound + 1`. */
  lemma BoundedStep(inst: map<string, nat>, cls: string, bound: nat)
    requires Bounded(inst, bound)
    ensures inst[cls := bound].Keys == inst.Keys + {cls}
    ensures Bounded(inst[cls := bound], bound + 1)
  {
  }

  /** Each name of `names` is recorded in `inst` at a page from `base` on that holds that class. */
  ghost predicate PagesRecorded(inst: map<string, nat>, ps: seq<Page>, base: nat, names: set<string>) {
    forall n :: n in names ==> n in inst && base <= inst[n] < |ps| && ps[inst[n]] == ToolPage(n)
  }

  /** Appending the page of `cls` and recording it keeps the earlier names recorded. */
  lemma RecordStep(inst: map<string, nat>, ps: seq<Page>, base: nat, names: set<string>, cls: string)
    requires base <= |ps| && PagesRecorded(inst, ps, base, names)
    ensures PagesRecorded(inst[cls := |ps|], ps + [ToolPage(cls)], base, names + {cls})
  {
    var ps' := ps + [ToolPage(cls)];
    forall n | n in names && n != cls
      ensures ps'[inst[n]] == ToolPage(n)
    {
      assert ps'[inst[n]] == ps[inst[n]];
    }
  }

  /** Every entry of `inst0` whose name is not in `names` is still in `inst`, unchanged. */
  ghost predicate Keeps(inst0: map<string, nat>, inst: map<string, nat>, names: set<string>) {
    forall n :: n in inst0 && n !in names ==> n in inst && inst[n] == inst0[n]
  }

  /** Registering `cls` keeps every entry outside the names registered so far and `cls`. */
  lemma KeepsStep(inst0: map<string, nat>, inst: map<string, nat>, names: set<string>, cls: string, v: nat)
    requires Keeps(inst0, inst, names)
    ensures Keeps(inst0, inst[cls := v], names + {cls})
  {
  }

  lemma PrefixStep(tools: seq<Tool>, k: nat)
    requires k < |tools|
    ensures PagesOf(tools[..k + 1]) == PagesOf(tools[..k]) + [ToolPage(tools[k].className)]
    ensures ClassNames(tools[..k + 1]) == ClassNames(tools[..k]) + {tools[k].className}
  {
    var p := tools[..k + 1];
    assert p[k] == tools[k];
    forall n | n in ClassNames(p)
      ensures n in ClassNames(tools[..k]) + {tools[k].className}
    {
      var m :| 0 <= m < k + 1 && p[m].className == n;
      if m < k {
        assert tools[..k][m] == p[m];
      }
    }
    forall n | n in ClassNames(tools[..k])
      ensures n in ClassNames(p)
    {
      var m :| 0 <= m < k && tools[..k][m].className == n;
      assert p[m] == tools[..k][m];
    }
  }

  /** The shipped registry has fourteen tools, in four categories. */
  lemma RegistrySize()
    ensures |Flatten(ToolCategories)| == 14
    ensures CategoryNames(ToolCategories) == {"文件工具", "编码工具", "格式化工具", "实用工具"}
  {
    var cats := ToolCategories;
    FlattenStep(cats, 0);
    FlattenStep(cats, 1);
    FlattenStep(cats, 2);
    FlattenStep(cats, 3);
    assert cats[..0] == [] && cats[..4] == cats;
  }

  // ---------------------------------------------------------------------------
  // The tree

  predicate IsCategoryItem(item: TreeItem, name: string) {
    item.text == name && item.parent == None && item.data == None
  }

  /** The item at `pos` shows `tool`, carries `index` and hangs under the
      category item named `owner`. */
  predicate ToolAt(tree: seq<TreeItem>, pos: nat, tool: Tool, owner: string, index: nat) {
    && pos < |tree| && tree[pos].text == tool.name && tree[pos].data == Some(index)
    && tree[pos].parent.Some? && tree[pos].parent.value < |tree|
    && IsCategoryItem(tree[tree[pos].parent.value], owner)
  }

  /** `tool_items[i]` is the item of tool `done[i]`, with index `i`. */
  predicate Registered(tree: seq<TreeItem>, items: seq<nat>, done: seq<Tool>, owners: seq<string>) {
    && |items| == |done| == |owners|
    && forall i :: 0 <= i < |items| ==> ToolAt(tree, items[i], done[i], owners[i], i)
  }

  /** `category_items` maps each name to a top-level item of that name. */
  predicate CategoriesRegistered(tree: seq<TreeItem>, categoryItems: map<string, nat>) {
    forall n :: n in categoryItems ==> categoryItems[n] < |tree| && IsCategoryItem(tree[categoryItems[n]], n)
  }

  /** Adding an item keeps every registered item where it was. */
  lemma RegisteredGrows(tree: seq<TreeItem>, x: TreeItem, items: seq<nat>, done: seq<Tool>, owners: seq<string>)
    requires Registered(tree, items, done, owners)
    ensures Registered(tree + [x], items, done, owners)
  {
    forall i | 0 <= i < |items|
      ensures ToolAt(tree + [x], items[i], done[i], owners[i], i)
    {
      var pos := items[i];
      assert (tree + [x])[pos] == tree[pos];
      assert (tree + [x])[tree[pos].parent.value] == tree[tree[pos].parent.value];
    }
  }

  /** Registering one more tool item, with the next index, keeps the others. */
  lemma RegisteredAppend(tree: seq<TreeItem>, items: seq<nat>, done: seq<Tool>, owners: seq<string>,
                         item: nat, tool: Tool, owner: string)
    requires Registered(tree, items, done, owners)
    requires ToolAt(tree, item, tool, owner, |items|)
    ensures Registered(tree, items + [item], done + [tool], owners + [owner])
  {
    forall i | 0 <= i < |items| + 1
      ensures ToolAt(tree, (items + [item])[i], (done + [tool])[i], (owners + [owner])[i], i)
    {
      if i < |items| {
        assert (items + [item])[i] == items[i];
        assert ToolAt(tree, items[i], done[i], owners[i], i);
      }
    }
  }

  // ---------------------------------------------------------------------------
  // Selection

  /** What the user sees: the tree, the pages and the page shown. */
  datatype View = View(tree: seq<TreeItem>, pages: seq<Page>, current: nat)

  /** `handle_tool_selection`: an item without data is expanded or collapsed;
      an item with index i shows page i + 1, which the stacked widget ignores
      when there is no such page. */
  function Clicked(v: View, item: nat): (r: View)
    requires item < |v.tree|
    ensures r.pages == v.pages && |r.tree| == |v.tree|
    ensures forall k :: 0 <= k < |v.tree| && k != item ==> r.tree[k] == v.tree[k]
    ensures v.tree[item].data == None ==>
              r.current == v.current && r.tree[item] == v.tree[item].(expanded := !v.tree[item].expanded)
    ensures v.tree[item].data.Some? ==> r.tree == v.tree
    ensures v.tree[item].data.Some? ==>
              r.current == if v.tree[item].data.value + 1 < |v.pages| then v.tree[item].data.value + 1 else v.current
  {
    var it := v.tree[item];
    match it.data
    case None => v.(tree := v.tree[item := it.(expanded := !it.expanded)])
    case Some(i) => if i + 1 < |v.pages| then v.(current := i + 1) else v
  }

  /** Clicking the item of tool i shows page i + 1, which holds that tool. */
  lemma ClickingToolShowsIt(v: View, items: seq<nat>, tools: seq<Tool>, owners: seq<string>, i: nat)
    requires Registered(v.tree, items, tools, owners)
    requires v.pages == [Welcome] + PagesOf(tools)
    requires i < |tools|
    ensures items[i] < |v.tree| && v.tree[items[i]].text == tools[i].name
    ensures var r := Clicked(v, items[i]);
            r.current == i + 1 && r.pages[r.current] == ToolPage(tools[i].className)
  {
    assert ToolAt(v.tree, items[i], tools[i], owners[i], i);
    assert v.pages[i + 1] == PagesOf(tools)[i];
  }

  /** Clicking a category item toggles it, keeps the page shown, and leaves the
      registry as it was. */
  lemma ClickingCategoryToggles(v: View, items: seq<nat>, tools: seq<Tool>, owners: seq<string>,
                                categoryItems: map<string, nat>, name: string)
    requires Registered(v.tree, items, tools, owners) && CategoriesRegistered(v.tree, categoryItems)
    requires name in categoryItems
    ensures var r := Clicked(v, categoryItems[name]);
            && r.current == v.current
            && r.tree[categoryItems[name]].expanded != v.tree[categoryItems[name]].expanded
            && Registered(r.tree, items, tools, owners) && CategoriesRegistered(r.tree, categoryItems)
  {
    var r := Clicked(v, categoryItems[name]);
    forall i | 0 <= i < |items|
      ensures ToolAt(r.tree, items[i], tools[i], owners[i], i)
    {
      assert ToolAt(v.tree, items[i], tools[i], owners[i], i);
    }
  }

  // ---------------------------------------------------------------------------
  // The window

  class ToolsApp {
    var tree: seq<TreeItem>
    var toolItems: seq<nat>
    var categoryItems: map<string, nat>
    var toolsList: seq<Tool>
    var pages: seq<Page>
    var current: nat
    /** The module-level `tool_instances` dictionary: a class name and the page
        of its instance. */
    var toolInstances: map<string, nat>

    function Snapshot(): View
      reads this
    {
      View(tree, pages, current)
    }

    /** `ToolsApp.__init__` with the registry `cats` (`ToolCategories` in the
        application, whose size and names `RegistrySize` gives). */
    constructor (cats: seq<Category>)
      ensures toolsList == Flatten(cats)
      ensures Registered(tree, toolItems, toolsList, Owners(cats))
      ensures CategoriesRegistered(tree, categoryItems) && categoryItems.Keys == CategoryNames(cats)
      ensures pages == [Welcome] + PagesOf(toolsList) && current == 0
      ensures toolInstances.Keys == ClassNames(toolsList)
      ensures forall i :: 0 <= i < |toolsList| ==>
                var p := toolInstances[toolsList[i].className];
                1 <= p < |pages| && pages[p] == ToolPage(toolsList[i].className)
    {
      tree := [];
      toolItems := [];
      categoryItems := map[];
      toolsList := [];
      pages := [];
      current := 0;
      toolInstances := map[];
      new;
      BuildTree(cats);
      ghost var built := (tree, toolItems);
      pages := [Welcome];
      CollectTools(cats);
      assert toolInstances.Keys == {};
      InitToolPages();
      assert (tree, toolItems) == built && toolsList == Flatten(cats);
    }

    /** The registry loop of `__init__`: a category item per category, then an
        item per tool with the running `tool_index`. */
    method BuildTree(cats: seq<Category>)
      requires tree == [] && toolItems == [] && categoryItems == map[]
      modifies this`tree, this`toolItems, this`categoryItems
      ensures Registered(tree, toolItems, Flatten(cats), Owners(cats))
      ensures CategoriesRegistered(tree, categoryItems) && categoryItems.Keys == CategoryNames(cats)
      ensures |tree| == |cats| + |Flatten(cats)|
    {
      var c := 0;
      while c < |cats|
        invariant 0 <= c <= |cats|
        invariant |tree| == c + |Flatten(cats[..c])|
        invariant Registered(tree, toolItems, Flatten(cats[..c]), Owners(cats[..c]))
        invariant CategoriesRegistered(tree, categoryItems)
        invariant categoryItems.Keys == CategoryNames(cats[..c])
      {
        var name := cats[c].name;
        var catPos := |tree|;
        RegisteredGrows(tree, TreeItem(name, None, None, false), toolItems, Flatten(cats[..c]), Owners(cats[..c]));
        tree := tree + [TreeItem(name, None, None, false)];
        categoryItems := categoryItems[name := catPos];
        AddCategoryTools(name, catPos, cats[c].tools, Flatten(cats[..c]), Owners(cats[..c]));
        FlattenStep(cats, c);
        c := c + 1;
      }
      assert cats[..c] == cats;
    }

    /** The inner loop of `build_tree`: each tool of one category gets an
        item under `catPos`, its index following those already registered. */
    method AddCategoryTools(name: string, catPos: nat, tools: seq<Tool>, ghost done: seq<Tool>, ghost owners: seq<string>)
      requires catPos < |tree| && IsCategoryItem(tree[catPos], name)
      requires Registered(tree, toolItems, done, owners)
      requires CategoriesRegistered(tree, categoryItems)
      modifies this`tree, this`toolItems, this`categoryItems
      ensures Registered(tree, toolItems, done + tools, owners + seq(|tools|, _ => name))
      ensures CategoriesRegistered(tree, categoryItems) && categoryItems == old(categoryItems)
      ensures |tree| == |old(tree)| + |tools|
    {
      ghost var doneNow := done;
      ghost var ownersNow := owners;
      var j := 0;
      while j < |tools|
        invariant 0 <= j <= |tools|
        invariant |tree| == |old(tree)| + j
        invariant catPos < |tree| && IsCategoryItem(tree[catPos], name)
        invariant doneNow == done + tools[..j]
        invariant |ownersNow| == |owners| + j && ownersNow[..|owners|] == owners
        invariant forall i :: |owners| <= i < |ownersNow| ==> ownersNow[i] == name
        invariant Registered(tree, toolItems, doneNow, ownersNow)
        invariant CategoriesRegistered(tree, categoryItems) && categoryItems == old(categoryItems)
      {
        var tool := tools[j];
        RegisteredGrows(tree, TreeItem(tool.name, Some(catPos), Some(|toolItems|), false), toolItems, doneNow, ownersNow);
        var item := AddTreeItem(name, tool, Some(catPos), Some(|toolItems|));
        RegisteredAppend(tree, toolItems, doneNow, ownersNow, item, tool, name);
        assert tools[..j + 1] == tools[..j] + [tool];
        toolItems := toolItems + [item];
        doneNow := doneNow + [tool];
        ownersNow := ownersNow + [name];
        j := j + 1;
      }
      assert tools[..j] == tools;
      assert ownersNow == owners + seq(|tools|, _ => name);
    }

    /** `add_tree_item`: without a category item, the registered one of that
        name is reused, or a new top-level one is created and registered; the
        tool's item goes under it with `toolIndex` as its data. */
    method AddTreeItem(categoryName: string, tool: Tool, categoryItem: Option<nat>, toolIndex: Option<nat>)
      returns (item: nat)
      requires categoryItem.Some? ==> categoryItem.value < |tree|
      requires CategoriesRegistered(tree, categoryItems)
      modifies this`tree, this`categoryItems
      ensures CategoriesRegistered(tree, categoryItems)
      ensures item == |tree| - 1
      ensures categoryItem.Some? ==>
                && tree == old(tree) + [TreeItem(tool.name, categoryItem, toolIndex, false)]
                && categoryItems == old(categoryItems)
      ensures categoryItem.None? && categoryName in old(categoryItems) ==>
                && tree == old(tree) + [TreeItem(tool.name, Some(old(categoryItems)[categoryName]), toolIndex, false)]
                && categoryItems == old(categoryItems)
      ensures categoryItem.None? && categoryName !in old(categoryItems) ==>
                && tree == old(tree) + [TreeItem(categoryName, None, None, false),
                                        TreeItem(tool.name, Some(|old(tree)|), toolIndex, false)]
                && categoryItems == old(categoryItems)[categoryName := |old(tree)|]
    {
      var parent: nat;
      if categoryItem.Some? {
        parent := categoryItem.value;
      } else if categoryName in categoryItems {
        parent := categoryItems[categoryName];
      } else {
        parent := |tree|;
        tree := tree + [TreeItem(categoryName, None, None, false)];
        categoryItems := categoryItems[categoryName := parent];
      }
      tree := tree + [TreeItem(tool.name, Some(parent), toolIndex, false)];
      item := |tree| - 1;
    }

    /** The `tools_list` loop: each category's tools appended in turn. */
    method CollectTools(cats: seq<Category>)
      modifies this`toolsList
      ensures toolsList == Flatten(cats)
    {
      toolsList := [];
      var c := 0;
      while c < |cats|
        invariant 0 <= c <= |cats|
        invariant toolsList == Flatten(cats[..c])
      {
        FlattenStep(cats, c);
        toolsList := toolsList + cats[c].tools;
        c := c + 1;
      }
      assert cats[..c] == cats;
    }

    /** `init_tool_pages`: a page per tool of `tools_list`, in order, each
        recorded in `tool_instances` under its class name. */
    method InitToolPages()
      requires Bounded(toolInstances, |pages|)
      modifies this`pages, this`toolInstances
      ensures pages == old(pages) + PagesOf(toolsList)
      ensures toolInstances.Keys == old(toolInstances).Keys + ClassNames(toolsList)
      ensures Bounded(toolInstances, |pages|)
      ensures PagesRecorded(toolInstances, pages, |old(pages)|, ClassNames(toolsList))
      ensures Keeps(old(toolInstances), toolInstances, ClassNames(toolsList))
    {
      var tools := toolsList;
      var ps: seq<Page> := pages;
      var inst: map<string, nat> := toolInstances;
      var k := 0;
      while k < |tools|
        invariant 0 <= k <= |tools|
        invariant ps == old(pages) + PagesOf(tools[..k])
        invariant inst.Keys == old(toolInstances).Keys + ClassNames(tools[..k])
        invariant Bounded(inst, |ps|)
        invariant PagesRecorded(inst, ps, |old(pages)|, ClassNames(tools[..k]))
        invariant Keeps(old(toolInstances), inst, ClassNames(tools[..k]))
      {
        var cls := tools[k].className;
        RecordStep(inst, ps, |old(pages)|, ClassNames(tools[..k]), cls);
        KeepsStep(old(toolInstances), inst, ClassNames(tools[..k]), cls, |ps|);
        PrefixStep(tools, k);
        BoundedStep(inst, cls, |ps|);
        inst := inst[cls := |ps|];
        ps := ps + [ToolPage(cls)];
        k := k + 1;
      }
      assert tools[..k] == tools;
      pages := ps;
      toolInstances := inst;
    }

    /** `handle_tool_selection` for the item at `item`. */
    method HandleToolSelection(item: nat)
      requires item < |tree|
      modifies this`tree, this`current
      ensures Snapshot() == Clicked(old(Snapshot()), item)
    {
      var it := tree[item];
      if it.data.None? {
        tree := tree[item := it.(expanded := !it.expanded)];
        return;
      }
      if it.data.value + 1 < |pages| {
        current := it.data.value + 1;
      }
    }
  }
}

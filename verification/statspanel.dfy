/** The statistics panel: the category histogram behind the pie chart, the
    number of files flagged sensitive, and nothing at all for an empty list. */
module StatsPanel {
  import opened Types

  const Uncategorized := "Uncategorized"

  /** The slice a file is counted in: its suggested category, or
      `Uncategorized` when it has no analysis or the category is empty. */
  function Category(f: OrganizedFile): string {
    if f.analysis.Some? && f.analysis.value.suggestedCategory != "" then f.analysis.value.suggestedCategory
    else Uncategorized
  }

  /** The category of each file, in order. */
  function Categories(fs: seq<OrganizedFile>): seq<string> {
    seq(|fs|, k requires 0 <= k < |fs| => Category(fs[k]))
  }

  /** How many of `fs` fall in category `c`. */
  function CountIn(fs: seq<OrganizedFile>, c: string): nat {
    multiset(Categories(fs))[c]
  }

  /** One entry of the chart's data. */
  datatype Slice = Slice(name: string, value: nat)

  function SumValues(data: seq<Slice>): nat {
    if data == [] then 0 else SumValues(data[..|data| - 1]) + data[|data| - 1].value
  }

  function Names(data: seq<Slice>): set<string> {
    set j | 0 <= j < |data| :: data[j].name
  }

  /** The categories of the first `i` files. */
  function CategoriesOf(files: seq<OrganizedFile>, i: nat): set<string>
    requires i <= |files|
  {
    set k | 0 <= k < i :: Category(files[k])
  }

  predicate DistinctNames(data: seq<Slice>) {
    forall i, j :: 0 <= i < j < |data| ==> data[i].name != data[j].name
  }

  /** Each slice counts the files of its category, and at least one. */
  predicate CountsMatch(files: seq<OrganizedFile>, data: seq<Slice>) {
    forall i :: 0 <= i < |data| ==> data[i].value == CountIn(files, data[i].name) && data[i].value >= 1
  }

  /** The chart's data for `files`: one slice per category, none twice, each
      counting exactly the files of its category, every file's category
      present and no other, and the counts adding up to the number of files. */
  predicate Histogram(files: seq<OrganizedFile>, data: seq<Slice>) {
    && DistinctNames(data)
    && CountsMatch(files, data)
    && Names(data) == CategoriesOf(files, |files|)
    && SumValues(data) == |files|
  }

  /** Where `c` is among the slices' names: the first such position, or the
      length when it is absent. */
  function Find(data: seq<Slice>, c: string): (k: nat)
    ensures k <= |data|
    ensures k < |data| ==> data[k].name == c
  {
    if data == [] then 0
    else if data[0].name == c then 0
    else 1 + Find(data[1..], c)
  }

  /** No slice before the one found carries the name. */
  lemma {:induction false} FindFirst(data: seq<Slice>, c: string)
    ensures forall j :: 0 <= j < Find(data, c) ==> data[j].name != c
  {
    if data != [] && data[0].name != c {
      FindFirst(data[1..], c);
    }
  }

  /** The state of the counting loop after `i` files: the histogram of the
      first `i` files. */
  ghost predicate Tally(files: seq<OrganizedFile>, i: nat, data: seq<Slice>)
    requires i <= |files|
  {
    && DistinctNames(data)
    && CountsMatch(files[..i], data)
    && Names(data) == CategoriesOf(files, i)
    && SumValues(data) == i
  }

  /** The `data` memo. The dictionary `cats` is kept as its entries in the
      order in which the keys were first met, and the slices are those
      entries; `Histogram` does not constrain their order. */
  method CategoryData(files: seq<OrganizedFile>) returns (data: seq<Slice>)
    ensures Histogram(files, data)
  {
    var cats: seq<Slice> := [];
    var i := 0;
    while i < |files|
      invariant i <= |files| && Tally(files, i, cats)
    {
      var cats' := Bump(cats, Category(files[i]));
      TallyStep(files, i, cats, cats');
      cats := cats';
      i := i + 1;
    }
    TallyDone(files, cats);
    data := cats;
  }

  /** `acc[cat] = (acc[cat] || 0) + 1` on the entries of the dictionary. */
  function Bump(cats: seq<Slice>, cat: string): seq<Slice> {
    var k := Find(cats, cat);
    if k < |cats| then cats[k := Slice(cat, cats[k].value + 1)] else cats + [Slice(cat, 1)]
  }

  /** The tally of all the files is their histogram. */
  lemma TallyDone(files: seq<OrganizedFile>, data: seq<Slice>)
    requires Tally(files, |files|, data)
    ensures Histogram(files, data)
  {
    assert files[..|files|] == files;
  }

  /** One round of the loop keeps the tally. */
  lemma TallyStep(files: seq<OrganizedFile>, i: nat, cats: seq<Slice>, cats': seq<Slice>)
    requires i < |files| && Tally(files, i, cats) && cats' == Bump(cats, Category(files[i]))
    ensures Tally(files, i + 1, cats')
  {
    var cat := Category(files[i]);
    var k := Find(cats, cat);
    StepNames(cats, cat, k, cats');
    Snoc(files, i);
    if k == |cats| {
      Absent(files, i, cat);
    }
    StepCounts(files[..i], files[i], cats, k, cats');
    StepCover(files, i, cats, cat, cats');
    if k < |cats| {
      SumUpdate(cats, k, Slice(cat, cats[k].value + 1));
    } else {
      assert cats'[..|cats|] == cats;
    }
  }

  /** The names are still the categories met. */
  lemma StepCover(files: seq<OrganizedFile>, i: nat, cats: seq<Slice>, cat: string, cats': seq<Slice>)
    requires i < |files| && Names(cats) == CategoriesOf(files, i) && cat == Category(files[i])
    requires |cats| <= |cats'| && (forall j :: 0 <= j < |cats| ==> cats'[j].name == cats[j].name)
    requires Find(cats', cat) < |cats'| && (|cats'| == |cats| || (|cats'| == |cats| + 1 && cats'[|cats|].name == cat))
    ensures Names(cats') == CategoriesOf(files, i + 1)
  {
    CategoriesOfStep(files, i);
    assert Names(cats') == Names(cats) + {cat} by {
      forall c | c in Names(cats') ensures c in Names(cats) + {cat} {
        var j :| 0 <= j < |cats'| && cats'[j].name == c;
        if j < |cats| {
          assert cats[j].name == c;
        }
      }
      forall c | c in Names(cats) ensures c in Names(cats') {
        var j :| 0 <= j < |cats| && cats[j].name == c;
        assert cats'[j].name == c;
      }
      assert cats'[Find(cats', cat)].name == cat;
    }
  }

  lemma CategoriesOfStep(files: seq<OrganizedFile>, i: nat)
    requires i < |files|
    ensures CategoriesOf(files, i + 1) == CategoriesOf(files, i) + {Category(files[i])}
  {
  }

  /** Every slice still counts the files of its category once `f` is added. */
  lemma StepCounts(before: seq<OrganizedFile>, f: OrganizedFile, cats: seq<Slice>, k: nat, cats': seq<Slice>)
    requires CountsMatch(before, cats) && k <= |cats|
    requires forall j :: 0 <= j < |cats| && j != k ==> cats[j].name != Category(f)
    requires k < |cats| ==> cats[k].name == Category(f)
    requires k == |cats| ==> CountIn(before, Category(f)) == 0
    requires cats' == if k < |cats| then cats[k := Slice(Category(f), cats[k].value + 1)] else cats + [Slice(Category(f), 1)]
    ensures CountsMatch(before + [f], cats')
  {
    CountAppend(before, f);
    forall j | 0 <= j < |cats'| ensures cats'[j].value == CountIn(before + [f], cats'[j].name) && cats'[j].value >= 1 {
      if j < |cats| && j != k {
        assert cats'[j] == cats[j];
      } else if j == k && k < |cats| {
        assert cats'[j] == Slice(Category(f), cats[k].value + 1);
      } else {
        assert j == |cats| == k;
        assert cats'[j] == Slice(Category(f), 1);
      }
    }
  }

  /** Adding a file adds one to its own category's count and nothing to the
      others. */
  lemma CountAppend(fs: seq<OrganizedFile>, f: OrganizedFile)
    ensures forall c :: CountIn(fs + [f], c) == CountIn(fs, c) + (if c == Category(f) then 1 else 0)
  {
    assert Categories(fs + [f]) == Categories(fs) + [Category(f)];
  }

  lemma Snoc<T>(s: seq<T>, i: nat)
    requires i < |s|
    ensures s[..i + 1] == s[..i] + [s[i]]
  {
  }

  /** A category none of the first `i` files has is counted zero times. */
  lemma Absent(files: seq<OrganizedFile>, i: nat, c: string)
    requires i <= |files| && c !in CategoriesOf(files, i)
    ensures CountIn(files[..i], c) == 0
  {
    assert c !in Categories(files[..i]);
  }

  /** The names stay distinct, keep their places, and now include `cat`. */
  lemma StepNames(cats: seq<Slice>, cat: string, k: nat, cats': seq<Slice>)
    requires DistinctNames(cats)
    requires k == Find(cats, cat)
    requires cats' == if k < |cats| then cats[k := Slice(cat, cats[k].value + 1)] else cats + [Slice(cat, 1)]
    ensures DistinctNames(cats')
    ensures forall j :: 0 <= j < |cats| && j != k ==> cats[j].name != cat
    ensures |cats| <= |cats'| && (forall j :: 0 <= j < |cats| ==> cats'[j].name == cats[j].name)
    ensures Find(cats', cat) < |cats'|
    ensures |cats'| == |cats| || (|cats'| == |cats| + 1 && cats'[|cats|].name == cat)
  {
    if k < |cats| {
      FindKept(cats, cats', cat);
    } else {
      FindFirst(cats, cat);
      FindAppend(cats, Slice(cat, 1), cat);
    }
  }

  /** A name found in `a` is found at the same place in `b` when `b` starts
      with `a`'s names. */
  lemma {:induction false} FindKept(a: seq<Slice>, b: seq<Slice>, c: string)
    requires |a| <= |b| && forall j :: 0 <= j < |a| ==> b[j].name == a[j].name
    requires Find(a, c) < |a|
    ensures Find(b, c) == Find(a, c)
  {
    if a[0].name != c {
      FindKept(a[1..], b[1..], c);
    }
  }

  /** A name missing from `a` is found at the end of `a + [x]` when `x`
      carries it. */
  lemma {:induction false} FindAppend(a: seq<Slice>, x: Slice, c: string)
    requires Find(a, c) == |a| && x.name == c
    ensures Find(a + [x], c) == |a|
  {
    if a != [] {
      assert (a + [x])[1..] == a[1..] + [x];
      FindAppend(a[1..], x, c);
    }
  }

  /** Replacing one slice changes the sum by the difference of the counts. */
  lemma {:induction false} SumUpdate(data: seq<Slice>, k: nat, x: Slice)
    requires k < |data|
    ensures SumValues(data[k := x]) + data[k].value == SumValues(data) + x.value
  {
    var n := |data| - 1;
    var data' := data[k := x];
    assert data'[..n] == if k < n then data[..n][k := x] else data[..n];
    if k < n {
      SumUpdate(data[..n], k, x);
    }
  }

  /** `f.analysis?.isSensitive`. */
  predicate IsSensitive(f: OrganizedFile) {
    f.analysis.Some? && f.analysis.value.isSensitive
  }

  /** `sensitiveCount`: the length of the filtered list. */
  function SensitiveCount(fs: seq<OrganizedFile>): nat {
    if fs == [] then 0
    else SensitiveCount(fs[..|fs| - 1]) + (if IsSensitive(fs[|fs| - 1]) then 1 else 0)
  }

  /** The count is the number of positions holding a file whose analysis flags
      it sensitive; files without analysis never count. */
  lemma {:induction false} SensitiveCountSpec(fs: seq<OrganizedFile>)
    ensures SensitiveCount(fs) == |set i | 0 <= i < |fs| && IsSensitive(fs[i])|
  {
    if fs != [] {
      var n := |fs| - 1;
      var init := fs[..n];
      SensitiveCountSpec(init);
      var before := set i | 0 <= i < n && IsSensitive(init[i]);
      var after := set i | 0 <= i < |fs| && IsSensitive(fs[i]);
      if IsSensitive(fs[n]) {
        assert after == before + {n};
      } else {
        assert after == before;
      }
    }
  }

  /** What the panel shows. */
  datatype Panel = Panel(data: seq<Slice>, sensitiveCount: nat)

  /** The component: nothing for an empty list, otherwise the histogram and
      the sensitive count. */
  method Render(files: seq<OrganizedFile>) returns (panel: Option<Panel>)
    ensures panel.None? <==> files == []
    ensures panel.Some? ==> Histogram(files, panel.value.data) && panel.value.sensitiveCount == SensitiveCount(files)
  {
    var data := CategoryData(files);
    var sensitiveCount := SensitiveCount(files);
    if |files| == 0 {
      return None;
    }
    return Some(Panel(data, sensitiveCount));
  }
}

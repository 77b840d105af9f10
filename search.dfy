/// The site search box (src/components/SearchBar.tsx): the fixed search
/// index, the filter the query effect runs over it, and the keyboard state
/// of the result list.
module Search {
  import opened JsString
  import opened Wrappers


  datatype IndexEntry = IndexEntry(path: string, title: string, category: string, keywords: seq<string>, content: string)

  datatype SearchResult = SearchResult(path: string, title: string, category: string, snippet: string)

  /** The pages `searchIndex` lists, in its order. */
  const Paths: seq<string> := [
    "/javascript/basics", "/javascript/intermediate", "/javascript/advanced",
    "/typescript/basics", "/typescript/intermediate", "/typescript/advanced",
    "/frameworks/react", "/frameworks/vue", "/frameworks/next"
  ]

  /** `searchIndex`. */
  const Index: seq<IndexEntry> := [
    IndexEntry(Paths[0], "JavaScript 基礎編", "JavaScript",
      ["変数", "関数", "配列", "オブジェクト", "条件分岐", "ループ", "let", "const", "var"],
      "JavaScriptの基礎から学びましょう。変数、関数、配列、オブジェクトなど、プログラミングの基本を学びます。"),
    IndexEntry(Paths[1], "JavaScript 中級編", "JavaScript",
      ["ES6", "非同期", "Promise", "async", "await", "クラス", "モジュール", "分割代入", "スプレッド"],
      "ES6以降の機能、配列操作、非同期処理、クラスなど、より実践的な内容を学びます。"),
    IndexEntry(Paths[2], "JavaScript 上級編", "JavaScript",
      ["デザインパターン", "メタプログラミング", "Proxy", "ジェネレータ", "パフォーマンス", "最適化"],
      "高度なパターン、パフォーマンス最適化、メタプログラミングなど、上級者向けの内容を学びます。"),
    IndexEntry(Paths[3], "TypeScript 基礎編", "TypeScript",
      ["型", "インターフェース", "クラス", "型ガード", "enum", "型アサーション"],
      "TypeScriptの基本を学びましょう。型システムの基礎から始めて、段階的に理解を深めます。"),
    IndexEntry(Paths[4], "TypeScript 中級編", "TypeScript",
      ["ジェネリクス", "ユーティリティ型", "条件型", "マップ型", "infer", "テンプレートリテラル型"],
      "ジェネリクス、ユーティリティ型、高度な型操作など、より実践的な内容を学びます。"),
    IndexEntry(Paths[5], "TypeScript 上級編", "TypeScript",
      ["型レベルプログラミング", "ブランド型", "条件型", "再帰型", "モジュール拡張"],
      "条件型、テンプレートリテラル型の高度な使い方、型レベルプログラミングなど、上級者向けの内容を学びます。"),
    IndexEntry(Paths[6], "React + TypeScript 学習", "React",
      ["React", "コンポーネント", "フック", "useState", "useEffect", "Context", "useReducer"],
      "ReactとTypeScriptを組み合わせて、モダンなWebアプリケーションを構築する方法を学びます。"),
    IndexEntry(Paths[7], "Vue.js + TypeScript 学習", "Vue.js",
      ["Vue", "Composition API", "リアクティビティ", "Pinia", "Vue Router", "ref", "reactive"],
      "Vue.jsとTypeScriptを組み合わせて、モダンなWebアプリケーションを構築する方法を学びます。"),
    IndexEntry(Paths[8], "Next.js + TypeScript 学習", "Next.js",
      ["Next.js", "SSR", "SSG", "API Routes", "ルーティング", "getServerSideProps", "getStaticProps"],
      "Next.jsとTypeScriptを組み合わせて、本番環境で使えるフルスタックアプリケーションを構築する方法を学びます。")
  ]

  /** At most this many results are shown. */
  const MaxResults := 8

  /** Title, some keyword, or content contains the lower-cased term. */
  predicate Matches(e: IndexEntry, term: string) {
    Contains(Lower(e.title), term) || SomeKeyword(e.keywords, term) || Contains(Lower(e.content), term)
  }

  /** `keywords.some(k => k.toLowerCase().includes(term))`. */
  predicate SomeKeyword(keywords: seq<string>, term: string)
    decreases |keywords|
  {
    |keywords| > 0 && (Contains(Lower(keywords[0]), term) || SomeKeyword(keywords[1..], term))
  }

  lemma {:induction false} SomeKeywordIff(keywords: seq<string>, term: string)
    ensures SomeKeyword(keywords, term) <==> exists k :: k in keywords && Contains(Lower(k), term)
    decreases |keywords|
  {
    if |keywords| > 0 {
      SomeKeywordIff(keywords[1..], term);
      assert keywords == [keywords[0]] + keywords[1..];
    }
  }

  function ToResult(e: IndexEntry): SearchResult {
    SearchResult(e.path, e.title, e.category, e.content)
  }

  /** The positions the `forEach` pushes, in order. */
  function MatchPositions(items: seq<IndexEntry>, term: string): (r: seq<nat>)
    ensures forall j :: 0 <= j < |r| ==> r[j] < |items| && Matches(items[r[j]], term)
    ensures forall j, k :: 0 <= j < k < |r| ==> r[j] < r[k]
    ensures forall i :: 0 <= i < |items| && Matches(items[i], term) ==> i in r
    decreases |items|
  {
    if |items| == 0 then []
    else
      var n := |items| - 1;
      var rest := MatchPositions(items[..n], term);
      assert forall i :: 0 <= i < n ==> items[..n][i] == items[i];
      if Matches(items[n], term) then rest + [n] else rest
  }

  function Positioned(items: seq<IndexEntry>, ps: seq<nat>): (r: seq<SearchResult>)
    requires forall j :: 0 <= j < |ps| ==> ps[j] < |items|
    ensures |r| == |ps|
    ensures forall j :: 0 <= j < |ps| ==> r[j] == ToResult(items[ps[j]])
  {
    seq(|ps|, j requires 0 <= j < |ps| => ToResult(items[ps[j]]))
  }

  /** `xs.slice(0, n)`. */
  function First<T>(xs: seq<T>, n: nat): (r: seq<T>)
    ensures |r| == if n <= |xs| then n else |xs|
    ensures forall j :: 0 <= j < |r| ==> r[j] == xs[j]
  {
    if n <= |xs| then xs[..n] else xs
  }

  /** `matched.slice(0, 8)` for the query over `items`, or nothing when the
      query is blank. */
  function ResultsIn(items: seq<IndexEntry>, query: string): (r: seq<SearchResult>)
    ensures |r| <= MaxResults
  {
    if IsBlank(query) then []
    else
      var ps := MatchPositions(items, Lower(query));
      Positioned(items, First(ps, MaxResults))
  }

  /** The search over the site's index. */
  function Results(query: string): seq<SearchResult> {
    ResultsIn(Index, query)
  }

  predicate DistinctPaths(items: seq<IndexEntry>) {
    forall i, j :: 0 <= i < j < |items| ==> items[i].path != items[j].path
  }

  /** The paths differ in length or in their second character. */
  lemma PathsDistinct()
    ensures forall i, j :: 0 <= i < j < |Paths| ==> Paths[i] != Paths[j]
  {
    var lengths := [18, 24, 20, 18, 24, 20, 17, 15, 16];
    var seconds := "jjjtttfff";
    assert forall i :: 0 <= i < |Paths| ==> |Paths[i]| == lengths[i] && Paths[i][1] == seconds[i];
    forall i, j | 0 <= i < j < |Paths|
      ensures Paths[i] != Paths[j]
    {
      assert lengths[i] != lengths[j] || seconds[i] != seconds[j];
    }
  }

  lemma IndexPaths()
    ensures |Index| == |Paths| && forall i :: 0 <= i < |Index| ==> Index[i].path == Paths[i]
  {
  }

  lemma IndexPathsDistinct()
    ensures DistinctPaths(Index)
  {
    PathsDistinct();
    IndexPaths();
  }

  /** A shown result is a matching index entry. */
  lemma ResultFromIndex(items: seq<IndexEntry>, query: string, j: nat) returns (i: nat)
    requires j < |ResultsIn(items, query)|
    ensures i < |items| && ResultsIn(items, query)[j] == ToResult(items[i]) && Matches(items[i], Lower(query))
  {
    var ps := MatchPositions(items, Lower(query));
    var t := First(ps, MaxResults);
    i := t[j];
  }

  /** Results appear in index order, so with distinct index paths no path
      is shown twice. */
  lemma ResultsDistinct(items: seq<IndexEntry>, query: string)
    requires DistinctPaths(items)
    ensures var r := ResultsIn(items, query);
            forall j, k :: 0 <= j < k < |r| ==> r[j].path != r[k].path
  {
    if !IsBlank(query) {
      var ps := MatchPositions(items, Lower(query));
      var t := First(ps, MaxResults);
      var r := ResultsIn(items, query);
      forall j, k | 0 <= j < k < |r|
        ensures r[j].path != r[k].path
      {
        assert t[j] < t[k];
        assert r[j] == ToResult(items[t[j]]) && r[k] == ToResult(items[t[k]]);
      }
    }
  }

  /** When no more than eight entries match, every one of them is shown. */
  lemma ResultsComplete(items: seq<IndexEntry>, query: string, i: nat)
    requires !IsBlank(query) && |MatchPositions(items, Lower(query))| <= MaxResults
    requires i < |items| && Matches(items[i], Lower(query))
    ensures ToResult(items[i]) in ResultsIn(items, query)
  {
    var ps := MatchPositions(items, Lower(query));
    var j :| 0 <= j < |ps| && ps[j] == i;
    assert ResultsIn(items, query)[j] == ToResult(items[i]);
  }

  /** The keyword `let` finds the JavaScript basics page. */
  lemma LetFindsBasics()
    ensures Matches(Index[0], "let")
  {
    var k := "let";
    assert k in Index[0].keywords;
    assert Lower(k) == k;
    assert IsPrefix(k, Lower(k));
    SomeKeywordIff(Index[0].keywords, k);
  }

  /** The query effect's loop. */
  method FilterIndex(items: seq<IndexEntry>, term: string) returns (matched: seq<SearchResult>)
    ensures matched == Positioned(items, MatchPositions(items, term))
  {
    matched := [];
    var i := 0;
    while i < |items|
      invariant 0 <= i <= |items|
      invariant matched == Positioned(items, MatchPositions(items[..i], term))
    {
      assert items[..i + 1][..i] == items[..i];
      var before := MatchPositions(items[..i], term);
      assert MatchPositions(items[..i + 1], term) == if Matches(items[i], term) then before + [i] else before;
      if Matches(items[i], term) {
        matched := matched + [ToResult(items[i])];
      }
      i := i + 1;
    }
    assert items[..i] == items;
  }

  datatype Key = Escape | ArrowDown | ArrowUp | Enter | CtrlK | OtherKey

  /** ArrowDown: one further down, never past the last result. */
  function Down(selected: int, count: nat): int {
    if selected < count - 1 then selected + 1 else selected
  }

  /** ArrowUp: one further up, never above -1 ("nothing selected"). */
  function Up(selected: int): int {
    if selected > 0 then selected - 1 else -1
  }

  /** The arrows keep a selection in -1..count-1 once it is there, and
      ArrowUp never leaves it below -1. */
  lemma ArrowsStayInRange(selected: int, count: nat)
    ensures -1 <= selected <= count - 1 ==> -1 <= Down(selected, count) <= count - 1
    ensures -1 <= selected <= count - 1 ==> -1 <= Up(selected) <= count - 1
    ensures Up(selected) >= -1
    ensures selected >= -1 ==> Down(selected, count) >= -1
    ensures Down(selected, count) == selected + 1 <==> selected < count - 1
  {
  }

  class SearchBox {
    /** The index the component closes over. */
    const items: seq<IndexEntry>
    var query: string
    var results: seq<SearchResult>
    var isOpen: bool
    var selectedIndex: int

    /** The shown results always belong to the current query. */
    predicate Valid()
      reads this
    {
      results == ResultsIn(items, query) && selectedIndex >= -1
    }

    constructor()
      ensures Valid() && items == Index
      ensures query == "" && results == [] && !isOpen && selectedIndex == -1
    {
      items := Index;
      query := "";
      results := [];
      isOpen := false;
      selectedIndex := -1;
    }

    /** The query effect. A blank query empties the results but leaves the
        selection where it was; any other query resets it. */
    method QueryChanged()
      requires selectedIndex >= -1
      modifies this
      ensures Valid()
      ensures IsBlank(query) ==> selectedIndex == old(selectedIndex)
      ensures !IsBlank(query) ==> selectedIndex == -1
      ensures query == old(query) && isOpen == old(isOpen)
    {
      if IsBlank(query) {
        results := [];
        return;
      }
      var matched := FilterIndex(items, Lower(query));
      ResultsMeaningFirst(items, query, matched);
      results := First(matched, MaxResults);
      selectedIndex := -1;
    }

    /** Typing into the field. */
    method Type(q: string)
      requires Valid()
      modifies this
      ensures Valid() && query == q && isOpen
      ensures IsBlank(q) ==> selectedIndex == old(selectedIndex)
      ensures !IsBlank(q) ==> selectedIndex == -1
    {
      query := q;
      isOpen := true;
      QueryChanged();
    }

    /** The key handler; returns the path it navigates to, if any. */
    method Press(k: Key) returns (navigateTo: Option<string>)
      requires Valid()
      modifies this
      ensures Valid()
      ensures navigateTo.Some? <==>
                k == Enter && 0 <= old(selectedIndex) < |old(results)|
      ensures navigateTo.Some? ==> navigateTo.value == old(results)[old(selectedIndex)].path
      ensures k == ArrowDown && old(isOpen) ==>
                selectedIndex == Down(old(selectedIndex), |old(results)|)
                && query == old(query) && results == old(results) && isOpen
      ensures k == ArrowUp && old(isOpen) ==>
                selectedIndex == Up(old(selectedIndex))
                && query == old(query) && results == old(results) && isOpen
      ensures k == Escape || navigateTo.Some? ==>
                query == "" && results == [] && !isOpen && selectedIndex == old(selectedIndex)
      ensures k == CtrlK ==>
                isOpen && query == old(query) && results == old(results) && selectedIndex == old(selectedIndex)
      ensures k == OtherKey || (k == Enter && navigateTo.None?) || ((k == ArrowDown || k == ArrowUp) && !old(isOpen)) ==>
                query == old(query) && results == old(results) && isOpen == old(isOpen)
                && selectedIndex == old(selectedIndex)
    {
      navigateTo := None;
      if k == Escape {
        isOpen := false;
        query := "";
        QueryChanged();
      } else if k == ArrowDown && isOpen {
        selectedIndex := Down(selectedIndex, |results|);
      } else if k == ArrowUp && isOpen {
        selectedIndex := Up(selectedIndex);
      } else if k == Enter && selectedIndex >= 0 && selectedIndex < |results| {
        navigateTo := Some(results[selectedIndex].path);
        isOpen := false;
        query := "";
        QueryChanged();
      } else if k == CtrlK {
        isOpen := true;
      }
    }

    /** `handleResultClick`: go to the result's page and close. */
    method ClickResult(path: string) returns (navigateTo: string)
      requires Valid()
      modifies this
      ensures Valid() && navigateTo == path
      ensures query == "" && results == [] && !isOpen && selectedIndex == old(selectedIndex)
    {
      navigateTo := path;
      isOpen := false;
      query := "";
      QueryChanged();
    }

    /** Hovering over the `index`-th result selects it. */
    method Hover(index: nat)
      requires Valid() && index < |results|
      modifies this
      ensures Valid() && selectedIndex == index
      ensures query == old(query) && isOpen == old(isOpen)
    {
      selectedIndex := index;
    }

    /** Focusing the field opens the list. */
    method Focus()
      requires Valid()
      modifies this
      ensures Valid() && isOpen
      ensures query == old(query) && selectedIndex == old(selectedIndex)
    {
      isOpen := true;
    }

    /** A click outside the box closes the list. */
    method ClickOutside()
      requires Valid()
      modifies this
      ensures Valid() && !isOpen
      ensures query == old(query) && selectedIndex == old(selectedIndex)
    {
      isOpen := false;
    }

    /** The clear button empties the query. */
    method Clear()
      requires Valid()
      modifies this
      ensures Valid() && query == "" && results == []
      ensures isOpen == old(isOpen) && selectedIndex == old(selectedIndex)
    {
      query := "";
      QueryChanged();
    }
  }

  lemma FirstPositioned(items: seq<IndexEntry>, ps: seq<nat>, n: nat)
    requires forall j :: 0 <= j < |ps| ==> ps[j] < |items|
    ensures First(Positioned(items, ps), n) == Positioned(items, First(ps, n))
  {
  }

  /** The loop's list, cut to eight, is `ResultsIn`. */
  lemma ResultsMeaningFirst(items: seq<IndexEntry>, query: string, matched: seq<SearchResult>)
    requires !IsBlank(query)
    requires matched == Positioned(items, MatchPositions(items, Lower(query)))
    ensures First(matched, MaxResults) == ResultsIn(items, query)
  {
    FirstPositioned(items, MatchPositions(items, Lower(query)), MaxResults);
  }
}

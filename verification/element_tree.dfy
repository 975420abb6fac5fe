/**
 * The parsed XML document as ElementTree presents it, and the part of
 * ElementTree's path language the add-on uses: `find` over a path of
 * plain child steps such as `./a:B/c/d:E`.
 *
 * Names are expanded names (namespace URI plus local name), so the prefix a
 * document happens to use is invisible here: two documents that bind
 * different prefixes to the same URIs parse to the same tree.
 */
module ElementTree {
  import opened Wrappers

  /** An expanded name; the empty URI stands for "no namespace". */
  datatype Name = Name(uri: string, local: string)

  const NoNamespace: string := ""

  function Unqualified(local: string): (n: Name)
    ensures n.uri == NoNamespace && n.local == local
  {
    Name(NoNamespace, local)
  }

  /**
   * One element: its tag, its attributes (keyed by expanded name, so `type`
   * and `xsi:type` are different keys), its text (`None` when the element has
   * no character data before its first child) and its children in document order.
   */
  datatype Element = Element(
    name: Name,
    attrs: map<Name, string>,
    text: Option<string>,
    children: seq<Element>)

  /** `Element.get(key)`: the attribute's value, or `None` when it is absent. */
  function Get(e: Element, key: Name): (r: Option<string>)
    ensures r.Some? <==> key in e.attrs
    ensures r.Some? ==> r.value == e.attrs[key]
  {
    if key in e.attrs then Some(e.attrs[key]) else None
  }

  /** The raw body handed to the parser. */
  type Body = string

  /**
   * `ElementTree.fromstring`: the parser is a library call, so it is a
   * parameter of every operation that parses; `None` stands for `ParseError`.
   */
  type Parser = Body -> Option<Element>

  // ---------------------------------------------------------------------
  // ElementPath's evaluation of a path of child steps
  // ---------------------------------------------------------------------

  /** The elements of `cs` whose tag is `n`, in order. */
  function Matching(cs: seq<Element>, n: Name): (r: seq<Element>)
    ensures forall x :: x in r <==> x in cs && x.name == n
    ensures |r| <= |cs|
  {
    if cs == [] then []
    else (if cs[0].name == n then [cs[0]] else []) + Matching(cs[1..], n)
  }

  /**
   * One child step: for each element of the current selection in turn, its
   * children tagged `n`, in document order.
   */
  function ChildStep(es: seq<Element>, n: Name): seq<Element>
  {
    if es == [] then [] else Matching(es[0].children, n) + ChildStep(es[1..], n)
  }

  /** The selection reached from `es` by the steps of `path`, one after another. */
  function Select(es: seq<Element>, path: seq<Name>): seq<Element>
    decreases |path|
  {
    if path == [] then es else Select(ChildStep(es, path[0]), path[1..])
  }

  /** `root.findall(path)`: everything the path selects, in document order. */
  function FindAll(root: Element, path: seq<Name>): seq<Element>
  {
    Select([root], path)
  }

  /**
   * `root.find(path)`: the first element the path selects, or `None`.
   * The root itself is where the path starts; its own tag is never compared.
   */
  function Find(root: Element, path: seq<Name>): Option<Element>
  {
    var all := FindAll(root, path);
    if all == [] then None else Some(all[0])
  }

  // ---------------------------------------------------------------------
  // Reference definition: a chain of children with the given tags
  // ---------------------------------------------------------------------

  /** `x` is reached from `e` by stepping to a child tagged `path[0]`, then `path[1]`, ... */
  ghost predicate Reaches(e: Element, path: seq<Name>, x: Element)
    decreases |path|
  {
    if path == [] then x == e
    else exists c :: c in e.children && c.name == path[0] && Reaches(c, path[1..], x)
  }

  /** Some element is reached from `e` along `path`. */
  ghost predicate HasPath(e: Element, path: seq<Name>)
  {
    exists x :: Reaches(e, path, x)
  }

  /** One child step selects exactly the children, tagged `n`, of the elements selected before. */
  lemma {:induction false} ChildStepMembers(es: seq<Element>, n: Name, x: Element)
    ensures x in ChildStep(es, n) <==> exists e :: e in es && x in e.children && x.name == n
  {
    if es != [] {
      ChildStepMembers(es[1..], n, x);
      assert forall e :: e in es <==> e == es[0] || e in es[1..];
    }
  }

  /** The selection of a path holds exactly the elements some selected start element reaches. */
  lemma {:induction false} SelectMembers(es: seq<Element>, path: seq<Name>, x: Element)
    ensures x in Select(es, path) <==> exists e :: e in es && Reaches(e, path, x)
    decreases |path|
  {
    if path != [] {
      var n, rest := path[0], path[1..];
      var next := ChildStep(es, n);
      SelectMembers(next, rest, x);
      if x in Select(es, path) {
        var c :| c in next && Reaches(c, rest, x);
        ChildStepMembers(es, n, c);
        var e :| e in es && c in e.children && c.name == n;
        assert Reaches(e, path, x);
      }
      if exists e :: e in es && Reaches(e, path, x) {
        var e :| e in es && Reaches(e, path, x);
        var c :| c in e.children && c.name == n && Reaches(c, rest, x);
        ChildStepMembers(es, n, c);
        assert c in next;
      }
    }
  }

  /** The selection from `es` is empty exactly when no start element has the path. */
  lemma SelectMeansReaches(es: seq<Element>, path: seq<Name>)
    ensures Select(es, path) != [] <==> exists e :: e in es && HasPath(e, path)
    ensures forall x :: x in Select(es, path) ==> exists e :: e in es && Reaches(e, path, x)
  {
    forall x ensures x in Select(es, path) <==> exists e :: e in es && Reaches(e, path, x) {
      SelectMembers(es, path, x);
    }
    if Select(es, path) != [] {
      assert Select(es, path)[0] in Select(es, path);
    }
    if exists e :: e in es && HasPath(e, path) {
      var e :| e in es && HasPath(e, path);
      var x :| Reaches(e, path, x);
      assert x in Select(es, path);
    }
  }

  /** `find` succeeds exactly when the path leads somewhere, and what it returns is reached along the path. */
  lemma FindMeaning(root: Element, path: seq<Name>)
    ensures Find(root, path).Some? <==> HasPath(root, path)
    ensures Find(root, path).Some? ==> Reaches(root, path, Find(root, path).value)
  {
    var all := FindAll(root, path);
    SelectMeansReaches([root], path);
    if all != [] {
      assert all[0] in all;
    }
  }

  /** Extending a path by one step applies one more child step to its selection. */
  lemma {:induction false} SelectAppend(es: seq<Element>, path: seq<Name>, n: Name)
    ensures Select(es, path + [n]) == ChildStep(Select(es, path), n)
    decreases |path|
  {
    if path == [] {
      assert Select(ChildStep(es, n), []) == ChildStep(es, n);
    } else {
      assert (path + [n])[0] == path[0] && (path + [n])[1..] == path[1..] + [n];
      SelectAppend(ChildStep(es, path[0]), path[1..], n);
    }
  }

  /** Whatever a longer path reaches, its prefix reaches the parent of. */
  lemma {:induction false} ReachesPrefix(e: Element, path: seq<Name>, n: Name, x: Element)
    requires Reaches(e, path + [n], x)
    ensures exists y :: Reaches(e, path, y) && x in y.children && x.name == n
    decreases |path|
  {
    if path == [] {
      var c :| c in e.children && c.name == n && Reaches(c, [], x);
      assert Reaches(e, path, e);
    } else {
      assert (path + [n])[1..] == path[1..] + [n];
      var c :| c in e.children && c.name == path[0] && Reaches(c, path[1..] + [n], x);
      ReachesPrefix(c, path[1..], n, x);
      var y :| Reaches(c, path[1..], y) && x in y.children && x.name == n;
      assert Reaches(e, path, y);
    }
  }

  /** If `find` succeeds on an extended path, it succeeds on the path it extends. */
  lemma FindExtendedPath(root: Element, path: seq<Name>, n: Name)
    ensures Find(root, path + [n]).Some? ==> Find(root, path).Some?
  {
    FindMeaning(root, path + [n]);
    FindMeaning(root, path);
    if Find(root, path + [n]).Some? {
      ReachesPrefix(root, path, n, Find(root, path + [n]).value);
    }
  }
}

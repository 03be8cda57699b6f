/** The schema generator: a message type's definition is followed by those of
    everything it depends on, each once, depth first in field order. */
module SchemaGen {
  import opened Options

  /** A found definition: its text and the types its fields name, in order. */
  datatype Definition = Definition(text: string, dependencies: seq<string>)

  type Library = map<string, Definition>

  const RULE: string := "================================================================================"

  // ------------------------------------------------------------ specification

  function Types(order: seq<string>): set<string> {
    set t | t in order
  }

  /** Depth first with an explicit stack: `todo` is what is still to be visited,
      `seen` what has been, in order. None if a type has no definition. */
  function Preorder(lib: Library, todo: seq<string>, seen: seq<string>): Option<seq<string>>
    decreases lib.Keys - Types(seen), |todo|
  {
    if todo == [] then Some(seen)
    else if todo[0] in seen then Preorder(lib, todo[1..], seen)
    else if todo[0] !in lib then None
    else
      assert todo[0] in lib.Keys - Types(seen) && todo[0] in Types(seen + [todo[0]]);
      Preorder(lib, lib[todo[0]].dependencies + todo[1..], seen + [todo[0]])
  }

  /** `b` is `n` dependencies away from `a`. */
  ghost predicate ReachesIn(lib: Library, a: string, b: string, n: nat)
    decreases n
  {
    if n == 0 then a == b
    else a in lib && exists d :: d in lib[a].dependencies && ReachesIn(lib, d, b, n - 1)
  }

  ghost predicate Reaches(lib: Library, a: string, b: string) {
    exists n: nat :: ReachesIn(lib, a, b, n)
  }

  ghost predicate NoDuplicates(order: seq<string>) {
    forall i, j | 0 <= i < j < |order| :: order[i] != order[j]
  }

  // ---------------------------------------------------------------- the search

  /** Everything the search adds has its dependencies in the result. */
  ghost predicate ClosedBeyond(lib: Library, order: seq<string>, seen: seq<string>) {
    forall t | t in order && t !in seen :: t in lib && forall d | d in lib[t].dependencies :: d in order
  }

  lemma {:induction false} SearchFinds(lib: Library, todo: seq<string>, seen: seq<string>)
    requires NoDuplicates(seen) && Preorder(lib, todo, seen).Some?
    ensures var order := Preorder(lib, todo, seen).value;
            && seen <= order && NoDuplicates(order) && ClosedBeyond(lib, order, seen)
            && forall t | t in todo :: t in order
    decreases lib.Keys - Types(seen), |todo|
  {
    if todo != [] {
      var t := todo[0];
      if t in seen {
        SearchFinds(lib, todo[1..], seen);
      } else {
        assert t in lib.Keys - Types(seen) && t in Types(seen + [t]);
        SearchFinds(lib, lib[t].dependencies + todo[1..], seen + [t]);
        var order := Preorder(lib, todo, seen).value;
        assert order[|seen|] == t;
        forall u | u in todo ensures u in order {
          if u != t { assert u in lib[t].dependencies + todo[1..]; }
        }
        forall d | d in lib[t].dependencies ensures d in order {
          assert d in lib[t].dependencies + todo[1..];
        }
      }
    }
  }

  /** The search adds only what something on the stack reaches. */
  lemma {:induction false} SearchAddsReached(lib: Library, todo: seq<string>, seen: seq<string>, t: string)
    requires Preorder(lib, todo, seen).Some? && t in Preorder(lib, todo, seen).value && t !in seen
    ensures exists u :: u in todo && Reaches(lib, u, t)
    decreases lib.Keys - Types(seen), |todo|
  {
    if todo != [] {
      var first := todo[0];
      if first in seen {
        SearchAddsReached(lib, todo[1..], seen, t);
        var u :| u in todo[1..] && Reaches(lib, u, t);
        assert u in todo;
      } else {
        StackReaches(lib, todo, seen, t);
      }
    }
  }

  lemma StackReaches(lib: Library, todo: seq<string>, seen: seq<string>, t: string)
    requires todo != [] && todo[0] !in seen && todo[0] in lib
    requires Preorder(lib, todo, seen).Some? && t in Preorder(lib, todo, seen).value && t !in seen
    ensures exists u :: u in todo && Reaches(lib, u, t)
    decreases lib.Keys - Types(seen), |todo|, 0
  {
    var first := todo[0];
    if t == first {
      assert ReachesIn(lib, first, t, 0);
      assert Reaches(lib, first, t);
    } else {
      assert first in lib.Keys - Types(seen) && first in Types(seen + [first]);
      SearchAddsReached(lib, lib[first].dependencies + todo[1..], seen + [first], t);
      var u :| u in lib[first].dependencies + todo[1..] && Reaches(lib, u, t);
      Through(lib, todo, u, t);
    }
  }

  /** What a dependency reaches, the type reaches. */
  lemma Through(lib: Library, todo: seq<string>, u: string, t: string)
    requires todo != [] && todo[0] in lib && u in lib[todo[0]].dependencies + todo[1..] && Reaches(lib, u, t)
    ensures exists v :: v in todo && Reaches(lib, v, t)
  {
    var n: nat :| ReachesIn(lib, u, t, n);
    if u in lib[todo[0]].dependencies {
      assert ReachesIn(lib, todo[0], t, n + 1);
      assert Reaches(lib, todo[0], t);
    } else {
      assert u in todo;
    }
  }

  /** A search that fails has something on its stack that reaches a type without a
      definition. */
  lemma {:induction false} SearchFails(lib: Library, todo: seq<string>, seen: seq<string>)
    requires Preorder(lib, todo, seen).None?
    ensures exists u, t :: u in todo && Reaches(lib, u, t) && t !in lib
    decreases lib.Keys - Types(seen), |todo|
  {
    var first := todo[0];
    if first in seen {
      SearchFails(lib, todo[1..], seen);
      var u, t :| u in todo[1..] && Reaches(lib, u, t) && t !in lib;
      assert u in todo;
    } else if first !in lib {
      assert ReachesIn(lib, first, first, 0);
      assert Reaches(lib, first, first);
    } else {
      assert first in lib.Keys - Types(seen) && first in Types(seen + [first]);
      SearchFails(lib, lib[first].dependencies + todo[1..], seen + [first]);
      var u, t :| u in lib[first].dependencies + todo[1..] && Reaches(lib, u, t) && t !in lib;
      Through(lib, todo, u, t);
    }
  }

  /** A closed set holds all that its members reach. */
  lemma {:induction false} ClosedReaches(lib: Library, order: seq<string>, a: string, b: string, n: nat)
    requires ClosedBeyond(lib, order, []) && a in order && ReachesIn(lib, a, b, n)
    ensures b in order
    decreases n
  {
    if n > 0 {
      var d :| d in lib[a].dependencies && ReachesIn(lib, d, b, n - 1);
      ClosedReaches(lib, order, d, b, n - 1);
    }
  }

  /** The order a schema is written in: the root first, no type twice, and exactly
      the types the root depends on, directly or not, cycles or not. There is none
      exactly if one of those has no definition. */
  lemma SchemaOrder(lib: Library, root: string)
    ensures Preorder(lib, [root], []).Some? <==> forall t | Reaches(lib, root, t) :: t in lib
    ensures Preorder(lib, [root], []).Some? ==>
              var order := Preorder(lib, [root], []).value;
              && order != [] && order[0] == root && NoDuplicates(order)
              && forall t :: t in order <==> Reaches(lib, root, t)
  {
    if Preorder(lib, [root], []).Some? {
      var order := Preorder(lib, [root], []).value;
      SearchFinds(lib, [root], []);
      RootFirst(lib, root);
      forall t ensures t in order <==> Reaches(lib, root, t) {
        if t in order { SearchAddsReached(lib, [root], [], t); }
        if Reaches(lib, root, t) {
          var n: nat :| ReachesIn(lib, root, t, n);
          ClosedReaches(lib, order, root, t, n);
        }
      }
    } else {
      SearchFails(lib, [root], []);
    }
  }

  lemma RootFirst(lib: Library, root: string)
    requires Preorder(lib, [root], []).Some?
    ensures [root] <= Preorder(lib, [root], []).value
  {
    assert root in lib.Keys - Types([]) && root in Types([] + [root]);
    assert [] + [root] == [root];
    SearchFinds(lib, lib[root].dependencies + [root][1..], [root]);
  }

  // ----------------------------------------------------------- depth first

  /** The first of these types that is not listed yet. */
  function FirstUnlisted(types: seq<string>, listed: seq<string>): Option<string> {
    if types == [] then None
    else if types[0] !in listed then Some(types[0])
    else FirstUnlisted(types[1..], listed)
  }

  /** What comes next in a depth-first listing: of the type listed last that still has
      one, the first dependency in field order that is not listed. */
  function NextUnlisted(lib: Library, visited: seq<string>, listed: seq<string>): Option<string> {
    if visited == [] then None
    else
      var last := visited[|visited| - 1];
      var next := if last in lib then FirstUnlisted(lib[last].dependencies, listed) else None;
      if next.Some? then next else NextUnlisted(lib, visited[..|visited| - 1], listed)
  }

  /** What the stack brings next is what comes next, whatever is listed meanwhile. */
  ghost predicate InStep(lib: Library, todo: seq<string>, seen: seq<string>) {
    forall listed: seq<string> | seen <= listed :: FirstUnlisted(todo, listed) == NextUnlisted(lib, seen, listed)
  }

  lemma {:induction false} FirstOfBoth(a: seq<string>, b: seq<string>, listed: seq<string>)
    ensures FirstUnlisted(a + b, listed)
            == if FirstUnlisted(a, listed).Some? then FirstUnlisted(a, listed) else FirstUnlisted(b, listed)
  {
    if a == [] {
      assert a + b == b;
    } else {
      assert (a + b)[1..] == a[1..] + b;
      FirstOfBoth(a[1..], b, listed);
    }
  }

  lemma VisitInStep(lib: Library, todo: seq<string>, seen: seq<string>)
    requires todo != [] && todo[0] in lib && (InStep(lib, todo, seen) || (seen == [] && |todo| == 1))
    ensures InStep(lib, lib[todo[0]].dependencies + todo[1..], seen + [todo[0]])
  {
    var t := todo[0];
    forall listed: seq<string> | seen + [t] <= listed
      ensures FirstUnlisted(lib[t].dependencies + todo[1..], listed) == NextUnlisted(lib, seen + [t], listed)
    {
      FirstOfBoth(lib[t].dependencies, todo[1..], listed);
      assert listed[|seen|] == t && (seen + [t])[..|seen|] == seen;
      assert seen <= listed;
    }
  }

  lemma SkipInStep(lib: Library, todo: seq<string>, seen: seq<string>)
    requires todo != [] && todo[0] in seen && InStep(lib, todo, seen)
    ensures InStep(lib, todo[1..], seen)
  {
    forall listed: seq<string> | seen <= listed
      ensures FirstUnlisted(todo[1..], listed) == NextUnlisted(lib, seen, listed)
    {
      var i :| 0 <= i < |seen| && seen[i] == todo[0];
      assert listed[i] == todo[0];
    }
  }

  lemma {:induction false} SearchInStep(lib: Library, todo: seq<string>, seen: seq<string>, i: nat)
    requires InStep(lib, todo, seen) && Preorder(lib, todo, seen).Some? && NoDuplicates(seen)
    requires |seen| <= i <= |Preorder(lib, todo, seen).value|
    ensures var order := Preorder(lib, todo, seen).value;
            NextUnlisted(lib, order[..i], order[..i]) == if i == |order| then None else Some(order[i])
    decreases lib.Keys - Types(seen), |todo|
  {
    SearchFinds(lib, todo, seen);
    var order := Preorder(lib, todo, seen).value;
    if todo == [] {
      assert order[..i] == seen && FirstUnlisted(todo, seen) == NextUnlisted(lib, seen, seen);
    } else if todo[0] in seen {
      SkipInStep(lib, todo, seen);
      SearchInStep(lib, todo[1..], seen, i);
    } else {
      var t := todo[0];
      assert t in lib.Keys - Types(seen) && t in Types(seen + [t]);
      if i == |seen| {
        SearchFinds(lib, lib[t].dependencies + todo[1..], seen + [t]);
        assert order[i] == t && order[..i] == seen;
        assert FirstUnlisted(todo, seen) == NextUnlisted(lib, seen, seen);
      } else {
        VisitInStep(lib, todo, seen);
        SearchInStep(lib, lib[t].dependencies + todo[1..], seen + [t], i);
      }
    }
  }

  /** The order is depth first in field order: each type but the root is the first
      dependency not listed before it of the type listed last that has one, and at the
      end there is none left. */
  lemma DepthFirst(lib: Library, root: string, i: nat)
    requires Preorder(lib, [root], []).Some? && 0 < i <= |Preorder(lib, [root], []).value|
    ensures var order := Preorder(lib, [root], []).value;
            NextUnlisted(lib, order[..i], order[..i]) == if i == |order| then None else Some(order[i])
  {
    assert root in lib.Keys - Types([]) && root in Types([] + [root]);
    VisitInStep(lib, [root], []);
    SearchInStep(lib, lib[root].dependencies + [root][1..], [] + [root], i);
  }

  /** What the stack's top type adds, whatever is below it. */
  lemma VisitStep(lib: Library, name: string, seen: seq<string>)
    ensures forall rest ::
              Preorder(lib, [name] + rest, seen)
              == if name in seen then Preorder(lib, rest, seen)
                 else if name !in lib then None
                 else Preorder(lib, lib[name].dependencies + rest, seen + [name])
  {
    forall rest
      ensures Preorder(lib, [name] + rest, seen)
              == if name in seen then Preorder(lib, rest, seen)
                 else if name !in lib then None
                 else Preorder(lib, lib[name].dependencies + rest, seen + [name])
    {
      assert ([name] + rest)[0] == name && ([name] + rest)[1..] == rest;
    }
  }

  // ------------------------------------------------------------------ the code

  class Collector {
    const lib: Library
    var order: seq<string>
    var seen: seq<string>

    constructor (lib: Library)
      ensures this.lib == lib && order == seen == []
    {
      this.lib, order, seen := lib, [], [];
    }

    /** Visits a type and, recursively, its dependencies. False if a definition is
        missing. */
    method Collect(name: string) returns (ok: bool)
      requires order == seen
      modifies this
      ensures ok ==> order == seen && lib.Keys - Types(seen) <= lib.Keys - Types(old(seen))
      ensures forall rest :: Preorder(lib, [name] + rest, old(seen)) == if ok then Preorder(lib, rest, seen) else None
      decreases lib.Keys - Types(seen), 1
    {
      ghost var before := seen;
      VisitStep(lib, name, before);
      hide Preorder;
      if name in seen {
        return true;
      }
      if name !in lib {
        seen := seen + [name];
        order := order + [name];
        return false;
      }
      seen := seen + [name];
      order := order + [name];
      assert name in lib.Keys - Types(old(seen)) && name in Types(seen);
      var dependencies := lib[name].dependencies;
      assert dependencies[0..] == dependencies;
      var i := 0;
      while i < |dependencies|
        invariant i <= |dependencies| && order == seen
        invariant lib.Keys - Types(seen) < lib.Keys - Types(old(seen))
        invariant forall rest ::
                    Preorder(lib, [name] + rest, old(seen)) == Preorder(lib, dependencies[i..] + rest, seen)
      {
        forall rest ensures dependencies[i..] + rest == [dependencies[i]] + (dependencies[i + 1..] + rest) {}
        ok := Collect(dependencies[i]);
        if !ok {
          return false;
        }
        i := i + 1;
      }
      forall rest: seq<string> ensures dependencies[i..] + rest == rest {}
      return true;
    }
  }

  /** A dependency's part of the schema. */
  function Section(lib: Library, name: string): string
    requires name in lib
  {
    RULE + "\nMSG: " + name + "\n" + lib[name].text
  }

  function Lined(text: string): string {
    if text != "" && text[|text| - 1] != '\n' then text + "\n" else text
  }

  /** The schema of an order: the root's text, then a section for each dependency. */
  function Schema(lib: Library, order: seq<string>): string
    requires order != [] && forall t | t in order :: t in lib
  {
    if |order| == 1 then lib[order[0]].text
    else
      var init := order[..|order| - 1];
      assert order[|order| - 1] in order && forall t | t in init :: t in order;
      Lined(Schema(lib, init)) + Section(lib, order[|order| - 1])
  }

  /** Behind the root's own text every dependency has, on lines of their own, the rule,
      its name and its definition. */
  lemma SectionText(lib: Library, order: seq<string>, t: string)
    requires order != [] && (forall u | u in order :: u in lib) && t in lib
    ensures Schema(lib, [t]) == lib[t].text
    ensures (forall u | u in order + [t] :: u in lib)
    ensures var before := Schema(lib, order);
            var newline := if before == "" || before[|before| - 1] == '\n' then "" else "\n";
            Schema(lib, order + [t])
            == before + newline + (RULE + "\nMSG: " + t + "\n" + lib[t].text)
  {
    var all := order + [t];
    assert all[..|order|] == order;
    var before := Schema(lib, order);
    var newline := if before == "" || before[|before| - 1] == '\n' then "" else "\n";
    assert Lined(before) == before + newline;
  }

  /** The text of an order. */
  method Write(lib: Library, order: seq<string>) returns (out: string)
    requires order != [] && forall t | t in order :: t in lib
    ensures out == Schema(lib, order)
  {
    out := lib[order[0]].text;
    assert order[..1] == [order[0]];
    var i := 1;
    while i < |order|
      invariant 1 <= i <= |order| && (forall t | t in order[..i] :: t in lib)
      invariant out == Schema(lib, order[..i])
    {
      assert order[..i + 1][..i] == order[..i];
      if out != "" && out[|out| - 1] != '\n' { out := out + "\n"; }
      out := out + Section(lib, order[i]);
      i := i + 1;
    }
    assert order[..i] == order;
  }

  /** build_schema: None if a definition is missing. */
  method BuildSchema(lib: Library, root: string) returns (schema: Option<string>)
    ensures schema.Some? <==> forall t | Reaches(lib, root, t) :: t in lib
    ensures schema.Some? ==>
              var order := Preorder(lib, [root], []);
              && order.Some? && order.value != [] && (forall t | t in order.value :: t in lib)
              && schema.value == Schema(lib, order.value)
  {
    hide Schema, Reaches;
    SchemaOrder(lib, root);
    var c := new Collector(lib);
    var ok := c.Collect(root);
    assert [root] + [] == [root];
    assert Preorder(lib, [root] + [], []) == if ok then Some(c.seen) else None;
    if !ok {
      return None;
    }
    var out := Write(lib, c.order);
    return Some(out);
  }
}

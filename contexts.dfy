/** The path of the parser's class-graph walk (ParserContext.php): the root class name
    and the variations followed from it. */
module ParserContexts {
  import opened Strings
  import opened Variations

  datatype ParserContext = ParserContext(root: string, stack: seq<PropertyVariationMetadata>)
  {
    /** The PHP names of the followed variations; a variation's name never changes. */
    function Names(): (r: seq<string>)
      ensures |r| == |stack| && forall i :: 0 <= i < |stack| ==> r[i] == stack[i].name
    {
      seq(|stack|, i requires 0 <= i < |stack| => stack[i].name)
    }

    /** __toString: the root alone, or the root and the names joined by "->". */
    function Render(): (r: string)
      ensures |stack| == 0 ==> r == root
      ensures r == Join([root] + Names(), "->")
    {
      if |stack| == 0 then root
      else
        JoinCons(root, Names(), "->");
        root + "->" + Join(Names(), "->")
    }

    /** push: a copy with the variation appended; the receiver is a value and stays as it was. */
    function Push(v: PropertyVariationMetadata): (c: ParserContext)
      ensures c.root == root && c.stack == stack + [v]
      ensures |c.stack| == |stack| + 1
    {
      ParserContext(root, stack + [v])
    }
  }

  /** Pushing a variation adds "->" and its name to the rendering. */
  lemma {:induction false} RenderPush(c: ParserContext, v: PropertyVariationMetadata)
    ensures c.Push(v).Render() == c.Render() + "->" + v.name
  {
    assert c.Push(v).Names() == c.Names() + [v.name];
    assert [c.root] + c.Push(v).Names() == ([c.root] + c.Names()) + [v.name];
    JoinSnoc([c.root] + c.Names(), v.name, "->");
  }
}

/** The path of the recursion checker's walk (RecursionContext.php): the root class name
    and the properties descended into. */
module RecursionContexts {
  import opened Strings
  import opened Sequences
  import opened Wrappers
  import opened PropertyTypes
  import opened PropertyTypeLaws
  import opened Properties

  /** The wildcard entry of an expected-recursion pattern. */
  const MatchEverything: string := "*"

  datatype RecursionContext = RecursionContext(root: string, stack: seq<PropertyMetadata>)
  {
    /** The names matched against: the root class name, then each serialized name. */
    function Path(): (r: seq<string>)
      ensures |r| == |stack| + 1 && r[0] == root
      ensures forall i :: 0 <= i < |stack| ==> r[i + 1] == stack[i].serializedName
    {
      [root] + seq(|stack|, i requires 0 <= i < |stack| => stack[i].serializedName)
    }

    /** __toString: the root alone, or the root and the serialized names joined by "->". */
    function Render(): (r: string)
      ensures |stack| == 0 ==> r == root
      ensures r == Join(Path(), "->")
    {
      if |stack| == 0 then root
      else
        assert Path() == [root] + Path()[1..];
        JoinCons(root, Path()[1..], "->");
        root + "->" + Join(Path()[1..], "->")
    }

    /** push: a copy with the property appended. */
    function Push(p: PropertyMetadata): (c: RecursionContext)
      ensures c.root == root && c.stack == stack + [p]
      ensures c.Path() == Path() + [p.serializedName]
    {
      var c := RecursionContext(root, stack + [p]);
      assert c.Path() == Path() + [p.serializedName];
      c
    }
  }

  /** The class a property refers to once array levels are peeled, if it refers to one. */
  function Target(p: PropertyMetadata): (r: Option<string>)
    ensures r.Some? <==> ArrayLeaf(p.propertyType).Class?
    ensures r.Some? ==> r.value == ArrayLeaf(p.propertyType).className
  {
    LeafClass(p.propertyType)
  }

  /** How many properties of the stack refer to the class. */
  function StackCount(stack: seq<PropertyMetadata>, className: string): (n: nat)
    ensures n <= |stack|
  {
    if |stack| == 0 then 0
    else StackCount(stack[..|stack| - 1], className) + (if Target(stack[|stack| - 1]) == Some(className) then 1 else 0)
  }

  /** What countClassNames computes: the root if it is the class, plus the properties
      that refer to it. */
  function ClassNameCount(c: RecursionContext, className: string): (n: nat)
    ensures n <= |c.stack| + 1
  {
    (if c.root == className then 1 else 0) + StackCount(c.stack, className)
  }

  /** countClassNames: one pass over the stack with a counter. */
  method CountClassNames(c: RecursionContext, className: string) returns (count: nat)
    ensures count == ClassNameCount(c, className)
  {
    count := 0;
    if c.root == className {
      count := count + 1;
    }
    var i := 0;
    while i < |c.stack|
      invariant 0 <= i <= |c.stack|
      invariant count == (if c.root == className then 1 else 0) + StackCount(c.stack[..i], className)
    {
      var t := c.stack[i].propertyType;
      if t.Array? {
        t := ArrayLeafType(t);
      }
      assert c.stack[..i + 1][..i] == c.stack[..i];
      if t.Class? && t.className == className {
        count := count + 1;
      }
      i := i + 1;
    }
    assert c.stack[..i] == c.stack;
  }

  /** One push raises any count by at most one, and by one exactly when the pushed
      property refers to the class. */
  lemma {:induction false} PushCount(c: RecursionContext, p: PropertyMetadata, className: string)
    ensures ClassNameCount(c.Push(p), className) == ClassNameCount(c, className) + (if Target(p) == Some(className) then 1 else 0)
    ensures ClassNameCount(c, className) <= ClassNameCount(c.Push(p), className) <= ClassNameCount(c, className) + 1
  {
    assert (c.stack + [p])[..|c.stack|] == c.stack;
  }

  /** The entry at j does not reject a start at i: it is the wildcard, or it equals the
      path element j places further (a position past the end of the path is no name). */
  predicate EntryAccepts(path: seq<string>, pattern: seq<string>, i: nat, j: nat)
    requires j < |pattern|
  {
    pattern[j] == MatchEverything || (i + j < |path| && path[i + j] == pattern[j])
  }

  /** The class names along a path whose every property refers to a class: the root,
      then each property's class. */
  function Tags(c: RecursionContext): (r: seq<string>)
    requires forall i :: 0 <= i < |c.stack| ==> Target(c.stack[i]).Some?
    ensures |r| == |c.stack| + 1
  {
    [c.root] + seq(|c.stack|, i requires 0 <= i < |c.stack| && Target(c.stack[i]).Some? => Target(c.stack[i]).value)
  }

  /** countClassNames is the multiplicity of the class among the tags. */
  lemma {:induction false} CountIsMultiplicity(c: RecursionContext, className: string)
    requires forall i :: 0 <= i < |c.stack| ==> Target(c.stack[i]).Some?
    ensures ClassNameCount(c, className) == multiset(Tags(c))[className]
    decreases |c.stack|
  {
    if |c.stack| > 0 {
      var n := |c.stack| - 1;
      var front := RecursionContext(c.root, c.stack[..n]);
      CountIsMultiplicity(front, className);
      assert Tags(c) == Tags(front) + [Target(c.stack[n]).value];
    }
  }

  /** When no class occurs more than twice on a path through classes drawn from u, the
      path is at most 2|u| long: the bound that makes the recursion check terminate. */
  lemma {:induction false} PathBound(c: RecursionContext, u: set<string>)
    requires c.root in u
    requires forall i :: 0 <= i < |c.stack| ==> Target(c.stack[i]).Some? && Target(c.stack[i]).value in u
    requires forall x :: ClassNameCount(c, x) <= 2
    ensures |c.stack| + 1 <= 2 * |u|
  {
    var tags := Tags(c);
    forall x ensures multiset(tags)[x] <= 2 {
      CountIsMultiplicity(c, x);
    }
    forall x | x in multiset(tags) ensures x in u {
      assert x in tags;
    }
    MultisetBound(multiset(tags), u);
  }

  /** The pattern starts at path position i: the first entry equals path[i] literally and
      no entry rejects the start. */
  predicate MatchesAt(path: seq<string>, pattern: seq<string>, i: nat)
    requires |pattern| > 0 && i < |path|
  {
    pattern[0] == path[i] && forall j :: 0 <= j < |pattern| ==> EntryAccepts(path, pattern, i, j)
  }

  /** The inner foreach of matches: the `$valid` flag for a start at i. */
  method EntriesAccept(current: seq<string>, pattern: seq<string>, i: nat) returns (valid: bool)
    ensures valid <==> forall q :: 0 <= q < |pattern| ==> EntryAccepts(current, pattern, i, q)
  {
    valid := true;
    var j := 0;
    while j < |pattern|
      invariant 0 <= j <= |pattern|
      invariant forall q :: 0 <= q < j ==> EntryAccepts(current, pattern, i, q)
    {
      if pattern[j] != MatchEverything && !(i + j < |current| && current[i + j] == pattern[j]) {
        assert !EntryAccepts(current, pattern, i, j);
        return false;
      }
      j := j + 1;
    }
  }

  /** The `$current` list: the root, then each serialized name. */
  method CurrentPath(c: RecursionContext) returns (current: seq<string>)
    ensures current == c.Path()
  {
    current := [c.root];
    var k := 0;
    while k < |c.stack|
      invariant 0 <= k <= |c.stack|
      invariant current == c.Path()[..k + 1]
    {
      current := current + [c.stack[k].serializedName];
      k := k + 1;
    }
  }

  /** The pattern is non-empty, no longer than the path, and starts at some position of it. */
  predicate PatternMatches(c: RecursionContext, pattern: seq<string>) {
    |pattern| > 0 && |pattern| <= |c.stack| + 1 &&
    exists i :: 0 <= i < |c.Path()| && MatchesAt(c.Path(), pattern, i)
  }

  /** matches: an empty pattern, or one longer than the path, is refused; otherwise each
      path position whose name equals the first entry is tried in turn. */
  method Matches(c: RecursionContext, pattern: seq<string>) returns (b: bool)
    ensures b <==> PatternMatches(c, pattern)
  {
    if |pattern| == 0 || |c.stack| + 1 < |pattern| {
      return false;
    }
    var current := CurrentPath(c);
    var i := 0;
    while i < |current|
      invariant 0 <= i <= |current|
      invariant forall m :: 0 <= m < i ==> !MatchesAt(current, pattern, m)
    {
      if pattern[0] == current[i] {
        var valid := EntriesAccept(current, pattern, i);
        if valid {
          assert MatchesAt(current, pattern, i);
          return true;
        }
      }
      i := i + 1;
    }
    return false;
  }

  /** A pattern that spells out a stretch of the path matches: both absolute patterns
      (starting at the root) and sub-paths are found. */
  lemma {:induction false} SegmentMatches(c: RecursionContext, i: nat, n: nat)
    requires 0 < n && i + n <= |c.Path()|
    ensures MatchesAt(c.Path(), c.Path()[i..i + n], i)
    ensures n <= |c.stack| + 1
  {
  }

  /** A leading wildcard is compared literally, so it never matches a path without a "*" name. */
  lemma {:induction false} LeadingWildcardNeverMatches(c: RecursionContext, pattern: seq<string>)
    requires |pattern| > 0 && pattern[0] == MatchEverything && MatchEverything !in c.Path()
    ensures forall i :: 0 <= i < |c.Path()| ==> !MatchesAt(c.Path(), pattern, i)
  {
  }

  /** Trailing wildcards are accepted even past the end of the path. */
  lemma {:induction false} TrailingWildcardsMatch(c: RecursionContext, pattern: seq<string>, i: nat)
    requires |pattern| > 0 && i < |c.Path()| && pattern[0] == c.Path()[i]
    requires forall j :: 1 <= j < |pattern| ==> pattern[j] == MatchEverything
    ensures MatchesAt(c.Path(), pattern, i)
  {
  }
}

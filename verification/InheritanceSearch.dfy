/** Does a class define or inherit a test method? Classes are looked up by name in every indexed file. */
module InheritanceSearch {

  datatype ClassInfo = ClassInfo(methods: set<string>, bases: seq<string>)

  /** The classes of each indexed file. */
  type Index = seq<map<string, ClassInfo>>

  // ---------------------------------------------------------------- parameterized expansions

  /** What the regular expression takes for a digit; neither the underscore nor the newline is one. */
  type DigitClass = f: char -> bool | !f('_') && !f('\n') witness (c: char) => '0' <= c <= '9'

  predicate Digits(digit: DigitClass, s: string) {
    forall i :: 0 <= i < |s| ==> digit(s[i])
  }

  /** What may follow the number: nothing, an underscore, or a final newline. */
  predicate EndsNumber(rest: string) {
    rest == "" || rest[0] == '_' || rest == "\n"
  }

  /** `name` is `test`, an underscore, a number, and then an accepted end. */
  ghost predicate Expands(digit: DigitClass, name: string, test: string) {
    exists number: string, rest: string ::
      number != "" && Digits(digit, number) && EndsNumber(rest) && name == test + "_" + number + rest
  }

  /** The regular expression at the start of the suffix: as many digits as there are, then an accepted end. */
  method StartsWithNumber(digit: DigitClass, suffix: string) returns (b: bool)
    ensures b <==> exists n :: 0 < n <= |suffix| && Digits(digit, suffix[..n]) && EndsNumber(suffix[n..])
  {
    var n := 0;
    while n < |suffix| && digit(suffix[n])
      invariant n <= |suffix| && Digits(digit, suffix[..n])
    {
      n := n + 1;
    }
    b := n > 0 && EndsNumber(suffix[n..]);
    forall k | 0 < k <= |suffix| && Digits(digit, suffix[..k]) && EndsNumber(suffix[k..])
      ensures k == n
    {
      NumberIsMaximal(digit, suffix, n, k);
      NumberIsMaximal(digit, suffix, k, n);
    }
  }

  /** No number that ends properly is followed by a digit. */
  lemma NumberIsMaximal(digit: DigitClass, suffix: string, k: nat, n: nat)
    requires k <= |suffix| && n <= |suffix| && Digits(digit, suffix[..n])
    requires k == |suffix| || !digit(suffix[k])
    ensures n <= k
  {
  }

  lemma ExpandsFromSuffix(digit: DigitClass, name: string, test: string)
    requires test + "_" <= name
    ensures Expands(digit, name, test) <==>
            var suffix := name[|test| + 1..];
            exists n :: 0 < n <= |suffix| && Digits(digit, suffix[..n]) && EndsNumber(suffix[n..])
  {
    var suffix := name[|test| + 1..];
    assert name == test + "_" + suffix;
    if n :| 0 < n <= |suffix| && Digits(digit, suffix[..n]) && EndsNumber(suffix[n..]) {
      assert name == test + "_" + suffix[..n] + suffix[n..];
    }
    forall number: string, rest: string |
      number != "" && Digits(digit, number) && EndsNumber(rest) && name == test + "_" + number + rest
      ensures exists n :: 0 < n <= |suffix| && Digits(digit, suffix[..n]) && EndsNumber(suffix[n..])
    {
      assert suffix == number + rest;
      assert suffix[..|number|] == number && suffix[|number|..] == rest;
    }
  }

  /** `_matches_parameterized` */
  method MatchesParameterized(digit: DigitClass, name: string, methods: set<string>) returns (b: bool)
    ensures b <==> exists test :: test in methods && Expands(digit, name, test)
  {
    var left := methods;
    while left != {}
      invariant left <= methods
      invariant forall test :: test in methods - left ==> !Expands(digit, name, test)
      decreases left
    {
      var test :| test in left;
      left := left - {test};
      if test + "_" <= name {
        ExpandsFromSuffix(digit, name, test);
        var matched := StartsWithNumber(digit, name[|test| + 1..]);
        if matched {
          return true;
        }
      } else {
        NoExpansion(digit, name, test);
      }
    }
    return false;
  }

  lemma NoExpansion(digit: DigitClass, name: string, test: string)
    requires !(test + "_" <= name)
    ensures !Expands(digit, name, test)
  {
  }

  // ---------------------------------------------------------------- the inheritance graph

  /** A test name, and what counts as a digit in it. */
  datatype Query = Query(test: string, digit: DigitClass)

  ghost predicate DefinesIn(info: ClassInfo, q: Query) {
    q.test in info.methods || exists m :: m in info.methods && Expands(q.digit, q.test, m)
  }

  /** Some file has a class of this name that defines the test itself. */
  ghost predicate Defines(index: Index, name: string, q: Query) {
    exists i :: 0 <= i < |index| && name in index[i] && DefinesIn(index[i][name], q)
  }

  /** Some file has a class `name` with `base` among its bases. */
  ghost predicate Extends(index: Index, name: string, base: string) {
    exists i :: 0 <= i < |index| && name in index[i] && base in index[i][name].bases
  }

  ghost predicate IsPath(index: Index, path: seq<string>) {
    && path != []
    && forall k :: 0 <= k < |path| - 1 ==> Step(index, path, k)
  }

  ghost predicate Step(index: Index, path: seq<string>, k: nat)
    requires k + 1 < |path|
  {
    Extends(index, path[k], path[k + 1])
  }

  ghost predicate Inherits(index: Index, name: string, ancestor: string) {
    exists path :: IsPath(index, path) && path[0] == name && path[|path| - 1] == ancestor
  }

  lemma InheritsSelf(index: Index, name: string)
    ensures Inherits(index, name, name)
  {
    assert IsPath(index, [name]);
    assert [name][0] == name && [name][|[name]| - 1] == name;
  }

  lemma InheritsThrough(index: Index, name: string, base: string, ancestor: string)
    requires Extends(index, name, base) && Inherits(index, base, ancestor)
    ensures Inherits(index, name, ancestor)
  {
    var path :| IsPath(index, path) && path[0] == base && path[|path| - 1] == ancestor;
    var longer := [name] + path;
    forall k | 0 <= k < |longer| - 1
      ensures Step(index, longer, k)
    {
      if k > 0 {
        assert Step(index, path, k - 1);
      }
    }
    assert IsPath(index, longer) && longer[|longer| - 1] == ancestor;
  }

  /** Names that some file has a class for. */
  function Known(index: Index): set<string> {
    if |index| == 0 then {} else Known(index[..|index| - 1]) + index[|index| - 1].Keys
  }

  lemma {:induction false} IndexedIsKnown(index: Index, i: nat, name: string)
    requires i < |index| && name in index[i]
    ensures name in Known(index)
  {
    if i < |index| - 1 {
      IndexedIsKnown(index[..|index| - 1], i, name);
    }
  }

  // ---------------------------------------------------------------- the search

  /** `name` was searched in vain and everything it extends is in `seen`. */
  ghost predicate Exhausted(index: Index, name: string, q: Query, seen: set<string>) {
    !Defines(index, name, q) && forall base :: Extends(index, name, base) ==> base in seen
  }

  ghost predicate AllExhausted(index: Index, names: set<string>, q: Query, seen: set<string>) {
    forall name :: name in names ==> Exhausted(index, name, q, seen)
  }

  /** A set closed under bases that holds no definition bounds every path that starts in it. */
  lemma {:induction false} PathsStayIn(index: Index, seen: set<string>, q: Query, path: seq<string>, k: nat)
    requires AllExhausted(index, seen, q, seen)
    requires IsPath(index, path) && path[0] in seen && k < |path|
    ensures path[k] in seen
  {
    if k > 0 {
      PathsStayIn(index, seen, q, path, k - 1);
      assert Step(index, path, k - 1);
      assert Exhausted(index, path[k - 1], q, seen);
    }
  }

  lemma NothingInherited(index: Index, seen: set<string>, name: string, q: Query)
    requires name in seen && AllExhausted(index, seen, q, seen)
    ensures forall ancestor :: Inherits(index, name, ancestor) ==> !Defines(index, ancestor, q)
  {
    forall ancestor | Inherits(index, name, ancestor)
      ensures !Defines(index, ancestor, q)
    {
      var path :| IsPath(index, path) && path[0] == name && path[|path| - 1] == ancestor;
      PathsStayIn(index, seen, q, path, |path| - 1);
      assert Exhausted(index, ancestor, q, seen);
    }
  }

  /** Files before `i` neither define the test for `name` nor name a base outside `seen`. */
  ghost predicate FilesDone(index: Index, name: string, q: Query, seen: set<string>, i: nat)
    requires i <= |index|
  {
    forall k :: 0 <= k < i && name in index[k] ==>
      !DefinesIn(index[k][name], q) && forall base :: base in index[k][name].bases ==> base in seen
  }

  lemma FilesDoneGrows(index: Index, name: string, q: Query, seen: set<string>, more: set<string>, i: nat)
    requires i <= |index| && FilesDone(index, name, q, seen, i) && seen <= more
    ensures FilesDone(index, name, q, more, i)
  {
  }

  lemma ExhaustedGrows(index: Index, names: set<string>, q: Query, seen: set<string>, more: set<string>)
    requires AllExhausted(index, names, q, seen) && seen <= more
    ensures AllExhausted(index, names, q, more)
  {
  }

  /** One search: the set of names already looked at is shared by all the recursive calls. */
  class Search {
    const index: Index
    const q: Query
    var visited: set<string>

    constructor (index: Index, q: Query)
      ensures this.index == index && this.q == q && visited == {}
    {
      this.index := index;
      this.q := q;
      visited := {};
    }

    /**
     `_has_method`. A hit names an inherited definition. A miss leaves every newly visited name exhausted, so the
     visited set is closed under bases up to the names that were in it before.
     */
    method Has(name: string) returns (found: bool, ghost definer: string)
      modifies this
      ensures old(visited) <= visited && name in visited
      ensures found ==> Inherits(index, name, definer) && Defines(index, definer, q)
      ensures !found ==> AllExhausted(index, visited - old(visited), q, visited)
      decreases Known(index) - visited, 1
    {
      definer := name;
      if name in visited {
        return false, name;
      }
      visited := visited + {name};
      InheritsSelf(index, name);
      ghost var done: set<string> := {};
      var i := 0;
      while i < |index|
        invariant i <= |index|
        invariant old(visited) + {name} <= visited
        invariant visited - old(visited) - {name} == done
        invariant AllExhausted(index, done, q, visited)
        invariant FilesDone(index, name, q, visited, i)
      {
        if name in index[i] {
          IndexedIsKnown(index, i, name);
          ghost var seen := visited;
          found, definer := InFile(i, name);
          if found {
            return;
          }
          ExhaustedGrows(index, done, q, seen, visited);
          FilesDoneGrows(index, name, q, seen, visited, i);
          done := visited - old(visited) - {name};
        }
        i := i + 1;
      }
      assert Exhausted(index, name, q, visited);
      return false, name;
    }

    /** The body of the loop over files, for a file that has the class. */
    method InFile(i: nat, name: string) returns (found: bool, ghost definer: string)
      requires i < |index| && name in index[i] && name in visited
      modifies this
      ensures old(visited) <= visited
      ensures found ==> Inherits(index, name, definer) && Defines(index, definer, q)
      ensures !found ==> !DefinesIn(index[i][name], q)
      ensures !found ==> forall base :: base in index[i][name].bases ==> base in visited
      ensures !found ==> AllExhausted(index, visited - old(visited), q, visited)
      decreases Known(index) - visited, 3
    {
      var info := index[i][name];
      definer := name;
      InheritsSelf(index, name);
      if q.test in info.methods {
        return true, name;
      }
      var matched := MatchesParameterized(q.digit, q.test, info.methods);
      if matched {
        return true, name;
      }
      found, definer := InBases(i, name);
    }

    method InBases(i: nat, name: string) returns (found: bool, ghost definer: string)
      requires i < |index| && name in index[i] && name in visited
      modifies this
      ensures old(visited) <= visited
      ensures found ==> Inherits(index, name, definer) && Defines(index, definer, q)
      ensures !found ==> forall base :: base in index[i][name].bases ==> base in visited
      ensures !found ==> AllExhausted(index, visited - old(visited), q, visited)
      decreases Known(index) - visited, 2
    {
      var bases := index[i][name].bases;
      definer := name;
      var j := 0;
      while j < |bases|
        invariant j <= |bases| && old(visited) <= visited
        invariant forall k :: 0 <= k < j ==> bases[k] in visited
        invariant AllExhausted(index, visited - old(visited), q, visited)
      {
        ghost var seen := visited;
        found, definer := Has(bases[j]);
        if found {
          assert Extends(index, name, bases[j]);
          InheritsThrough(index, name, bases[j], definer);
          return;
        }
        ExhaustedGrows(index, seen - old(visited), q, seen, visited);
        assert visited - old(visited) == (seen - old(visited)) + (visited - seen);
        j := j + 1;
      }
      return false, name;
    }
  }

  /** The search started with nothing visited finds a test exactly when some ancestor defines it. */
  method HasMethod(name: string, q: Query, index: Index) returns (found: bool)
    ensures found <==> exists ancestor :: Inherits(index, name, ancestor) && Defines(index, ancestor, q)
  {
    var search := new Search(index, q);
    ghost var definer;
    found, definer := search.Has(name);
    if !found {
      assert search.visited - {} == search.visited;
      NothingInherited(index, search.visited, name, q);
    }
  }
}

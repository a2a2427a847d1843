// The result-shape adapter of py/testFunctions.py: a decorator that calls
// the wrapped function and adapts what it returns by its exact type (a
// list gets "-bob" after each element, a dictionary passes through, anything
// else is treated as a string and gets "-is-a-string"), answering
// "not null" when the call or the adapting raises. py/testFunctions.py:29-45
// defines its own decorated test_function, test_dict_function and
// test_string (its test_unicode is commented out); their bodies are the same
// as those of py/test.py:5-17, so this module wraps PyTest's definitions
// rather than declaring them twice.
module TestFunctions {
  import opened PyTest

  /** What calling the wrapped function did: returned a value or raised. */
  datatype Call = Returns(value: Value) | Raises

  /** The elements of a list, when every one is a string. */
  predicate AllStrings(items: seq<Value>)
  {
    forall i :: 0 <= i < |items| ==> items[i].Str?
  }

  /** closure: the adapted result, or "not null" when the call raised or
      the adapter did (adding a string to something that is not one). */
  function Closure(res: Call): (r: Value)
  {
    match res
    case Raises => Str("not null")
    case Returns(v) =>
      match v
      case List(items) =>
        if AllStrings(items)
        then List(seq(|items|, i requires 0 <= i < |items| && AllStrings(items) => Str(items[i].s + "-bob")))
        else Str("not null")
      case Dict(_) => v
      case Str(s) => Str(s + "-is-a-string")
      case Other => Str("not null")
  }

  /** A list of strings keeps its length and order, each element followed
      by "-bob". */
  lemma ClosureOfList(items: seq<Value>)
    requires AllStrings(items)
    ensures var r := Closure(Returns(List(items)));
            r.List? && |r.items| == |items| &&
            forall i :: 0 <= i < |items| ==> r.items[i] == Str(items[i].s + "-bob")
  {
  }

  /** A dictionary passes through unchanged. */
  lemma ClosureOfDict(entries: map<string, Value>)
    ensures Closure(Returns(Dict(entries))) == Dict(entries)
  {
  }

  /** A string gets "-is-a-string" after it. */
  lemma ClosureOfString(s: string)
    ensures Closure(Returns(Str(s))) == Str(s + "-is-a-string")
  {
  }

  /** Whatever raises, in the call or in the adapter, answers "not null";
      and "not null" comes only from such a raise, never from an adapted
      value. */
  lemma ClosureFailures(res: Call)
    ensures res.Raises? ==> Closure(res) == Str("not null")
    ensures res.Returns? && res.value.List? && !AllStrings(res.value.items) ==> Closure(res) == Str("not null")
    ensures res.Returns? && res.value.Other? ==> Closure(res) == Str("not null")
    ensures Closure(res) == Str("not null") ==>
              res.Raises? || (res.value.List? && !AllStrings(res.value.items)) || res.value.Other?
  {
  }

  /** handler: the decorator. */
  function Handler<A(!new)>(f: A -> Call): (g: A -> Value)
    ensures forall a :: g(a) == Closure(f(a))
  {
    a => Closure(f(a))
  }

  /** The decorated test_function: each element followed by
      "-sauce-bob". */
  lemma DecoratedTestFunction(quiteAList: seq<string>)
    ensures var r := Handler((l: seq<string>) => Returns(TestFunction(l)))(quiteAList);
            r.List? && |r.items| == |quiteAList| &&
            forall i :: 0 <= i < |quiteAList| ==> r.items[i] == Str(quiteAList[i] + "-sauce" + "-bob")
  {
    ClosureOfList(TestFunction(quiteAList).items);
  }

  /** The example of the module: ["a", "b"] gives ["a-sauce-bob",
      "b-sauce-bob"]. */
  lemma DecoratedTestFunctionExample()
    ensures Handler((l: seq<string>) => Returns(TestFunction(l)))(["a", "b"]) == List([Str("a-sauce-bob"), Str("b-sauce-bob")])
  {
    var l := ["a", "b"];
    DecoratedTestFunction(l);
    var r := Handler((l: seq<string>) => Returns(TestFunction(l)))(l);
    assert l[0] + "-sauce" + "-bob" == "a-sauce-bob" && l[1] + "-sauce" + "-bob" == "b-sauce-bob";
    assert r.items == [Str("a-sauce-bob"), Str("b-sauce-bob")];
  }

  /** The decorated test_dict_function is test_dict_function itself. */
  lemma DecoratedTestDictFunction(testd: map<string, string>)
    ensures Handler((d: map<string, string>) => Returns(TestDictFunction(d)))(testd) == TestDictFunction(testd)
  {
  }

  /** The decorated test_string gives 'a string-is-a-string' and the
      decorated test_exception, which always raises, "not null". */
  lemma DecoratedConstants()
    ensures Handler((u: ()) => Returns(TestString()))(()) == Str("a string-is-a-string")
    ensures Handler((u: ()) => Raises)(()) == Str("not null")
  {
  }
}

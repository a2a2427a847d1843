// The demonstration functions of py/test.py, which the embedded
// interpreter calls to exercise conversion of Python results: a list, a
// dictionary and strings. Python values are modelled as far as they need
// telling apart: strings, lists, dictionaries with string keys, and any
// other value.
module PyTest {
  datatype Value = Str(s: string) | List(items: seq<Value>) | Dict(entries: map<string, Value>) | Other

  /** test_function: each element followed by "-sauce", in order. */
  function TestFunction(quiteAList: seq<string>): (r: Value)
    ensures r.List? && |r.items| == |quiteAList|
    ensures forall i :: 0 <= i < |quiteAList| ==> r.items[i] == Str(quiteAList[i] + "-sauce")
  {
    List(seq(|quiteAList|, i requires 0 <= i < |quiteAList| => Str(quiteAList[i] + "-sauce")))
  }

  /** The key test_dict_function files an entry under. */
  function SauceKey(k: string): string
  {
    k + " sauce"
  }

  /** test_dict_function: each key k filed under "k sauce" with the value
      "testd[k] boss". */
  function TestDictFunction(testd: map<string, string>): (r: Value)
    ensures r.Dict?
    ensures forall k :: k in testd ==> SauceKey(k) in r.entries && r.entries[SauceKey(k)] == Str(testd[k] + " boss")
    ensures forall k :: k in r.entries ==> exists j :: j in testd && k == SauceKey(j)
  {
    SauceKeysDistinct();
    Dict(map k | k in testd :: SauceKey(k) := Str(testd[k] + " boss"))
  }

  /** Different keys are filed under different keys. */
  lemma SauceKeysDistinct()
    ensures forall a, b :: SauceKey(a) == SauceKey(b) ==> a == b
  {
    forall a, b | SauceKey(a) == SauceKey(b)
      ensures a == b
    {
      assert a == SauceKey(a)[..|a|];
      assert |a| == |b|;
      assert b == SauceKey(b)[..|b|];
    }
  }

  /** No two keys collide, so the dictionary keeps its size. */
  lemma TestDictKeepsSize(testd: map<string, string>)
    ensures |TestDictFunction(testd).entries| == |testd|
  {
    var r := TestDictFunction(testd).entries;
    var keys := set k | k in testd :: SauceKey(k);
    assert r.Keys == keys;
    ImageSize(testd.Keys);
  }

  /** An injective image has as many elements as its source. */
  lemma {:induction false} ImageSize(s: set<string>)
    ensures |set k | k in s :: SauceKey(k)| == |s|
    decreases |s|
  {
    if s != {} {
      var x :| x in s;
      var rest := s - {x};
      ImageSize(rest);
      var img := set k | k in s :: SauceKey(k);
      var imgRest := set k | k in rest :: SauceKey(k);
      assert img == imgRest + {SauceKey(x)};
      assert SauceKey(x) !in imgRest by {
        if SauceKey(x) in imgRest {
          var y :| y in rest && SauceKey(y) == SauceKey(x);
          SauceKeysDistinct();
        }
      }
    }
  }

  /** test_unicode: the literal of the file, whose first character was
      saved twice encoded: U+00C3 U+00BC where the commented-out copy in
      py/testFunctions.py has U+00FC. */
  function TestUnicode(): (r: string)
    ensures |r| == 15 && r[0] as int == 0xC3 && r[1] as int == 0xBC && r[2..] == "nicode string"
  {
    "\U{00C3}\U{00BC}nicode string"
  }

  /** test_string. */
  function TestString(): (r: Value)
    ensures r == Str("a string")
  {
    Str("a string")
  }
}

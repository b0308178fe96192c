/** The part of a JSON object builder the token builder relies on: an object is an ordered
    list of named members, and adding a member under a name that is already present replaces
    that member's value where it stands instead of adding a second member. */
module Json {
  import opened Wrappers

  /** The kinds of value the token builder stores in its claims. */
  datatype Value =
    | String(str: string)
    | Number(num: int)
    | Array(items: seq<string>)

  datatype Member = Member(name: string, value: Value)

  /** A JSON object, as its members in insertion order. */
  type Object = seq<Member>

  /** The names that have a member in `o`. */
  function Names(o: Object): set<string> {
    if |o| == 0 then {} else {o[0].name} + Names(o[1..])
  }

  /** No name appears twice, as in any object a JSON builder produces. */
  predicate DistinctNames(o: Object) {
    |o| == 0 || (o[0].name !in Names(o[1..]) && DistinctNames(o[1..]))
  }

  /** The value stored under `name`, if any. */
  function Get(o: Object, name: string): (r: Option<Value>)
    ensures r.Some? <==> name in Names(o)
    ensures r.Some? ==> Member(name, r.value) in o
  {
    if |o| == 0 then None
    else if o[0].name == name then Some(o[0].value)
    else Get(o[1..], name)
  }

  /** Adds `name: value` to `o`. A present name keeps its position and gets the new value;
      a new name is appended after every existing member. */
  function Add(o: Object, name: string, value: Value): (r: Object)
    ensures Get(r, name) == Some(value)
    ensures forall n :: n != name ==> Get(r, n) == Get(o, n)
    ensures Names(r) == Names(o) + {name}
    ensures name in Names(o) ==> |r| == |o|
    ensures name !in Names(o) ==> r == o + [Member(name, value)]
  {
    if |o| == 0 then [Member(name, value)]
    else if o[0].name == name then [Member(name, value)] + o[1..]
    else
      assert ([o[0]] + Add(o[1..], name, value))[1..] == Add(o[1..], name, value);
      assert name !in Names(o) ==> [o[0]] + (o[1..] + [Member(name, value)]) == o + [Member(name, value)];
      [o[0]] + Add(o[1..], name, value)
  }

  /** Adding keeps names distinct. */
  lemma {:induction false} AddKeepsNamesDistinct(o: Object, name: string, value: Value)
    ensures DistinctNames(o) ==> DistinctNames(Add(o, name, value))
  {
    if |o| > 0 && o[0].name != name {
      AddKeepsNamesDistinct(o[1..], name, value);
      var r := Add(o, name, value);
      assert r[0] == o[0] && r[1..] == Add(o[1..], name, value);
    } else if |o| > 0 {
      assert Add(o, name, value)[1..] == o[1..];
    }
  }

  /** Adding under the same name twice leaves only the second value, and the object is
      exactly as if the first addition had never happened. */
  lemma {:induction false} AddTwice(o: Object, name: string, first: Value, second: Value)
    ensures Add(Add(o, name, first), name, second) == Add(o, name, second)
  {
    if |o| == 0 {
    } else if o[0].name == name {
      assert Add(o, name, first)[1..] == o[1..];
    } else {
      AddTwice(o[1..], name, first, second);
      var once := Add(o, name, first);
      assert once[0] == o[0];
      assert once[1..] == Add(o[1..], name, first);
    }
  }
}

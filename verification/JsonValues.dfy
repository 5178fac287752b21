/** JSON values as the programs build them, and what such a value means.

    `Json` keeps object members in insertion order, as a JavaScript object does; `Tree` forgets
    that order. Numbers are integers and there is no `undefined`.
 */
module JsonValues {
  import opened StringOrder

  datatype Json =
    | JNull
    | JBool(b: bool)
    | JNumber(n: int)
    | JString(s: string)
    | JArray(items: seq<Json>)
    | JObject(members: seq<Member>)

  datatype Member = Member(key: string, value: Json)

  datatype Tree =
    | Null
    | Bool(b: bool)
    | Number(n: int)
    | String(s: string)
    | Array(items: seq<Tree>)
    | Object(fields: map<string, Tree>)

  function Keys(members: seq<Member>): set<string> {
    set i | 0 <= i < |members| :: members[i].key
  }

  /** No object has two members of one name. */
  ghost predicate WellFormed(j: Json) {
    match j
    case JArray(items) => forall x | x in items :: WellFormed(x)
    case JObject(members) =>
      && (forall i, k | 0 <= i < k < |members| :: members[i].key != members[k].key)
      && (forall m | m in members :: WellFormed(m.value))
    case _ => true
  }

  /** Position of a member. */
  function Find(members: seq<Member>, key: string): (i: nat)
    requires key in Keys(members)
    ensures i < |members| && members[i].key == key
  {
    if members[0].key == key then 0
    else
      assert key in Keys(members[1..]) by {
        var i :| 0 <= i < |members| && members[i].key == key;
        assert members[1..][i - 1].key == key;
      }
      1 + Find(members[1..], key)
  }

  /** The tree a value denotes: object members without their order. */
  function Meaning(j: Json): Tree {
    match j
    case JNull => Null
    case JBool(b) => Bool(b)
    case JNumber(n) => Number(n)
    case JString(s) => String(s)
    case JArray(items) => Array(seq(|items|, i requires 0 <= i < |items| => Meaning(items[i])))
    case JObject(members) =>
      Object(map key | key in Keys(members) :: Meaning(members[Find(members, key)].value))
  }

  /** Assigning to this name on an object literal sets the prototype instead of adding a member. */
  const PROTO := "__proto__"

  /** A tree without any member of that name. */
  function Strip(t: Tree): Tree {
    match t
    case Array(items) => Array(seq(|items|, i requires 0 <= i < |items| => Strip(items[i])))
    case Object(fields) => Object(map key | key in fields && key != PROTO :: Strip(fields[key]))
    case _ => t
  }

  /** The value that lists every object's members in ascending key order. */
  function FromTree(t: Tree): Json {
    match t
    case Null => JNull
    case Bool(b) => JBool(b)
    case Number(n) => JNumber(n)
    case String(s) => JString(s)
    case Array(items) => JArray(seq(|items|, i requires 0 <= i < |items| => FromTree(items[i])))
    case Object(fields) =>
      var keys := Sorted(fields.Keys);
      SortedMembers(fields.Keys);
      JObject(seq(|keys|, i requires 0 <= i < |keys| =>
        assert keys[i] in keys; Member(keys[i], FromTree(fields[keys[i]]))))
  }

  /** Which members the ascending listing has. */
  lemma FromTreeMembers(fields: map<string, Tree>)
    ensures Keys(FromTree(Object(fields)).members) == fields.Keys
    ensures forall m | m in FromTree(Object(fields)).members ::
              m.key in fields && m.value == FromTree(fields[m.key])
    ensures forall i, k | 0 <= i < k < |FromTree(Object(fields)).members| ::
              FromTree(Object(fields)).members[i].key != FromTree(Object(fields)).members[k].key
  {
    var keys := Sorted(fields.Keys);
    SortedMembers(fields.Keys);
    var members := FromTree(Object(fields)).members;
    assert |members| == |keys|;
    forall i | 0 <= i < |keys|
      ensures members[i].key == keys[i] && keys[i] in fields
      ensures members[i].value == FromTree(fields[keys[i]])
    {
      assert keys[i] in keys;
    }
    forall key | key in fields ensures key in Keys(members) {
      assert key in keys;
      var i :| 0 <= i < |keys| && keys[i] == key;
      assert members[i].key == key;
    }
  }

  lemma {:induction false} FromTreeMeaning(t: Tree)
    ensures Meaning(FromTree(t)) == t
  {
    match t
    case Array(items) =>
      forall i | 0 <= i < |items| ensures Meaning(FromTree(items[i])) == items[i] {
        FromTreeMeaning(items[i]);
      }
      assert Meaning(FromTree(t)).items == items;
    case Object(fields) =>
      forall key | key in fields ensures Meaning(FromTree(fields[key])) == fields[key] {
        FromTreeMeaning(fields[key]);
      }
      FromTreeMembers(fields);
      var members := FromTree(t).members;
      forall m | m in members ensures m.key in fields && Meaning(m.value) == fields[m.key] {}
      ObjectMeaning(members, fields);
    case _ =>
  }

  /** Reading an object's meaning off its members, whatever their order. */
  lemma ObjectMeaning(members: seq<Member>, fields: map<string, Tree>)
    requires Keys(members) == fields.Keys
    requires forall m | m in members :: m.key in fields && Meaning(m.value) == fields[m.key]
    ensures Meaning(JObject(members)) == Object(fields)
  {
    var meant := Meaning(JObject(members)).fields;
    forall key | key in fields ensures meant[key] == fields[key] {
      assert members[Find(members, key)] in members;
    }
    assert meant == fields;
  }
}

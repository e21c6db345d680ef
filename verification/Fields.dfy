/**
 Structured field dictionaries. The parser is foreign: a field value is given by the members it
 lists, in text order and with repetitions, or by nothing if it is no dictionary. A dictionary
 keeps each key once, at the place of its first member and with the value of its last.
 */
module Fields {
  import opened Wrappers
  import opened Wire

  /** A string of a structured field: printable ASCII. */
  type SfString = s: string | Printable(s)

  datatype BareItem = Text(text: SfString) | Token(token: string) | OtherItem(raw: string)

  datatype Item = Item(bare: BareItem, params: map<string, BareItem>)

  datatype ListEntry = Single(item: Item) | InnerList(items: seq<Item>, params: map<string, BareItem>)

  datatype DictMember = DictMember(key: string, entry: ListEntry)

  type Dictionary = seq<DictMember>

  function Get(d: Dictionary, key: string): Option<ListEntry> {
    if d == [] then None
    else if d[0].key == key then Some(d[0].entry)
    else Get(d[1..], key)
  }

  /** Sets a key: its value is replaced where it stands, or it is added at the end. */
  function Insert(d: Dictionary, m: DictMember): Dictionary {
    if d == [] then [m]
    else if d[0].key == m.key then [m] + d[1..]
    else [d[0]] + Insert(d[1..], m)
  }

  function InsertAll(d: Dictionary, ms: seq<DictMember>): Dictionary
    decreases |ms|
  {
    if ms == [] then d else InsertAll(Insert(d, ms[0]), ms[1..])
  }

  /** The value of the last member with this key. */
  function LastOf(ms: seq<DictMember>, key: string): Option<ListEntry> {
    if ms == [] then None
    else if ms[|ms| - 1].key == key then Some(ms[|ms| - 1].entry)
    else LastOf(ms[..|ms| - 1], key)
  }

  function Or(a: Option<ListEntry>, b: Option<ListEntry>): Option<ListEntry> {
    if a.Some? then a else b
  }

  lemma {:induction false} GetInsert(d: Dictionary, m: DictMember, key: string)
    ensures Get(Insert(d, m), key) == if key == m.key then Some(m.entry) else Get(d, key)
  {
    if d != [] && d[0].key != m.key {
      GetInsert(d[1..], m, key);
    }
  }

  lemma {:induction false} InsertAllAppend(d: Dictionary, ms: seq<DictMember>, more: seq<DictMember>)
    ensures InsertAll(d, ms + more) == InsertAll(InsertAll(d, ms), more)
    decreases |ms|
  {
    if ms == [] {
      assert ms + more == more;
    } else {
      InsertAllAppend(Insert(d, ms[0]), ms[1..], more);
      assert (ms + more)[1..] == ms[1..] + more;
    }
  }

  /** Inserting members in order, the last one wins. */
  lemma {:induction false} GetInsertAll(d: Dictionary, ms: seq<DictMember>, key: string)
    ensures Get(InsertAll(d, ms), key) == Or(LastOf(ms, key), Get(d, key))
    decreases |ms|
  {
    if ms != [] {
      var n := |ms| - 1;
      GetInsertAll(d, ms[..n], key);
      InsertAllAppend(d, ms[..n], [ms[n]]);
      assert ms[..n] + [ms[n]] == ms;
      var before := InsertAll(d, ms[..n]);
      assert [ms[n]][1..] == [];
      assert InsertAll(before, [ms[n]]) == Insert(before, ms[n]);
      GetInsert(before, ms[n], key);
    }
  }

  lemma {:induction false} LastOfAppend(a: seq<DictMember>, b: seq<DictMember>, key: string)
    ensures LastOf(a + b, key) == Or(LastOf(b, key), LastOf(a, key))
    decreases |b|
  {
    if b == [] {
      assert a + b == a;
    } else {
      var n := |b| - 1;
      LastOfAppend(a, b[..n], key);
      assert (a + b)[..|a + b| - 1] == a + b[..n];
    }
  }

  predicate DistinctKeys(d: Dictionary) {
    forall i, j :: 0 <= i < j < |d| ==> d[i].key != d[j].key
  }

  lemma {:induction false} GetIffKey(d: Dictionary, key: string)
    ensures Get(d, key).Some? <==> exists i :: 0 <= i < |d| && d[i].key == key
  {
    if d != [] {
      GetIffKey(d[1..], key);
      if d[0].key != key {
        if i :| 0 <= i < |d| && d[i].key == key {
          assert d[1..][i - 1].key == key;
        }
        if i :| 0 <= i < |d| - 1 && d[1..][i].key == key {
          assert d[i + 1].key == key;
        }
      }
    }
  }

  lemma {:induction false} InsertDistinct(d: Dictionary, m: DictMember)
    requires DistinctKeys(d)
    ensures DistinctKeys(Insert(d, m))
    ensures forall i :: 0 <= i < |Insert(d, m)| ==>
              Insert(d, m)[i].key == m.key || exists j :: 0 <= j < |d| && d[j].key == Insert(d, m)[i].key
  {
    if d != [] {
      if d[0].key == m.key {
        forall i | 0 <= i < |d| ensures Insert(d, m)[i].key == d[i].key {}
      } else {
        InsertDistinct(d[1..], m);
        var r := Insert(d[1..], m);
        forall i | 0 <= i < |Insert(d, m)|
          ensures Insert(d, m)[i].key == m.key || exists j :: 0 <= j < |d| && d[j].key == Insert(d, m)[i].key
          ensures i > 0 ==> Insert(d, m)[i].key != d[0].key
        {
          if i == 0 {
            assert d[0].key == Insert(d, m)[0].key;
          } else {
            assert Insert(d, m)[i] == r[i - 1];
            if r[i - 1].key != m.key {
              var j :| 0 <= j < |d[1..]| && d[1..][j].key == r[i - 1].key;
              assert d[j + 1].key == Insert(d, m)[i].key;
            }
          }
        }
      }
    }
  }

  /** In a dictionary each key stands once, so looking up a listed key finds its own entry. */
  lemma {:induction false} GetListed(d: Dictionary, i: nat)
    requires DistinctKeys(d) && i < |d|
    ensures Get(d, d[i].key) == Some(d[i].entry)
  {
    if i > 0 {
      GetListed(d[1..], i - 1);
    }
  }

  // Fields of one or more values.

  /** The dictionary that one field value parses to. */
  function ParseDictionary(members: string -> Option<seq<DictMember>>, value: string): Option<Dictionary> {
    match members(value)
    case None => None
    case Some(ms) => Some(InsertAll([], ms))
  }

  /** All members of a field with several values, in order, if every value is a dictionary. */
  function Combined(members: string -> Option<seq<DictMember>>, values: seq<string>): Option<seq<DictMember>> {
    if values == [] then Some([])
    else
      var n := |values| - 1;
      var before, last := Combined(members, values[..n]), members(values[n]);
      if before.Some? && last.Some? then Some(before.value + last.value) else None
  }

  lemma {:induction false} CombinedNeedsAll(members: string -> Option<seq<DictMember>>, values: seq<string>, i: nat)
    requires i < |values| && members(values[i]).None?
    ensures Combined(members, values).None?
    decreases |values|
  {
    if i < |values| - 1 {
      CombinedNeedsAll(members, values[..|values| - 1], i);
    }
  }

  /** Extending a dictionary by the dictionary of a value looks up like inserting its members one by one. */
  lemma ExtendIsInsertAll(d: Dictionary, ms: seq<DictMember>, key: string)
    ensures Get(InsertAll(d, InsertAll([], ms)), key) == Get(InsertAll(d, ms), key)
  {
    InsertAllDistinct([], ms);
    var parsed := InsertAll([], ms);
    GetInsertAll(d, ms, key);
    GetInsertAll([], ms, key);
    GetInsertAll(d, parsed, key);
    LastOfDistinct(parsed, key);
  }

  lemma {:induction false} InsertAllDistinct(d: Dictionary, ms: seq<DictMember>)
    requires DistinctKeys(d)
    ensures DistinctKeys(InsertAll(d, ms))
    decreases |ms|
  {
    if ms != [] {
      InsertDistinct(d, ms[0]);
      InsertAllDistinct(Insert(d, ms[0]), ms[1..]);
    }
  }

  lemma {:induction false} LastOfFound(ms: seq<DictMember>, key: string)
    ensures LastOf(ms, key).Some? ==> DictMember(key, LastOf(ms, key).value) in ms
    ensures LastOf(ms, key).None? ==> forall i :: 0 <= i < |ms| ==> ms[i].key != key
  {
    if ms != [] {
      LastOfFound(ms[..|ms| - 1], key);
    }
  }

  lemma LastOfDistinct(d: Dictionary, key: string)
    requires DistinctKeys(d)
    ensures LastOf(d, key) == Get(d, key)
  {
    LastOfFound(d, key);
    GetIffKey(d, key);
    if LastOf(d, key).Some? {
      var i :| 0 <= i < |d| && d[i] == DictMember(key, LastOf(d, key).value);
      GetListed(d, i);
    }
  }

  /** The members of a field are those of its values, one after the other. */
  lemma {:induction false} CombinedExact(members: string -> Option<seq<DictMember>>, a: seq<string>, b: seq<string>, value: string)
    ensures Combined(members, [value]) == members(value)
    ensures Combined(members, a + b) ==
            if Combined(members, a).Some? && Combined(members, b).Some?
            then Some(Combined(members, a).value + Combined(members, b).value) else None
    decreases |b|
  {
    assert [value][..0] == [];
    assert members(value).Some? ==> [] + members(value).value == members(value).value;
    if b == [] {
      assert a + b == a;
      assert Combined(members, a).Some? ==> Combined(members, a).value + [] == Combined(members, a).value;
    } else {
      var n := |b| - 1;
      CombinedExact(members, a, b[..n], value);
      assert (a + b)[..|a + b| - 1] == a + b[..n];
      if Combined(members, a).Some? && Combined(members, b[..n]).Some? && members(b[n]).Some? {
        CombinedMore(members, a, b[..n], b[n]);
      }
    }
  }

  lemma CombinedMore(members: string -> Option<seq<DictMember>>, a: seq<string>, b: seq<string>, value: string)
    requires Combined(members, a).Some? && Combined(members, b).Some? && members(value).Some?
    ensures Combined(members, a).value + Combined(members, b).value + members(value).value
         == Combined(members, a).value + (Combined(members, b).value + members(value).value)
  {
  }
}

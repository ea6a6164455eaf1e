/** An employee record as the component holds it: a JavaScript object, that is
    an ordered list of distinct keys with their values. The order is the order
    in which `for…in` and `Object.keys` visit the keys (none of the keys here
    looks like an array index, so that is insertion order). */
module Records {
  import opened Values

  type Field = (string, Value)

  predicate DistinctKeys(fs: seq<Field>)
  {
    forall i, j :: 0 <= i < j < |fs| ==> fs[i].0 != fs[j].0
  }

  /** A JavaScript object never holds the same key twice. */
  type Record = fs: seq<Field> | DistinctKeys(fs) witness []

  predicate HasKey(fs: seq<Field>, key: string)
  {
    exists i :: 0 <= i < |fs| && fs[i].0 == key
  }

  /** `r[key]`: the value stored under `key`, or None for `undefined`. */
  function Lookup(fs: seq<Field>, key: string): (v: Option<Value>)
    ensures v.None? <==> !HasKey(fs, key)
    ensures v.Some? ==> exists i :: 0 <= i < |fs| && fs[i] == (key, v.value)
  {
    if fs == [] then None
    else if fs[0].0 == key then Some(fs[0].1)
    else
      var v := Lookup(fs[1..], key);
      assert forall i :: 0 < i < |fs| ==> fs[i] == fs[1..][i - 1];
      v
  }

  /** The position of `key` in a list of fields that holds it. */
  function KeyIndex(fs: seq<Field>, key: string): (i: nat)
    requires HasKey(fs, key)
    ensures i < |fs| && fs[i].0 == key
  {
    if fs[0].0 == key then 0
    else
      assert HasKey(fs[1..], key) by {
        var j :| 0 <= j < |fs| && fs[j].0 == key;
        assert fs[1..][j - 1].0 == key;
      }
      1 + KeyIndex(fs[1..], key)
  }

  /** `{ ...r, [key]: v }`: an existing key keeps its position and takes the
      new value; a new key is appended at the end. */
  function WithField(r: Record, key: string, v: Value): (r': Record)
    ensures HasKey(r, key) ==>
      |r'| == |r| && forall i :: 0 <= i < |r| ==> r'[i].0 == r[i].0
    ensures !HasKey(r, key) ==> r' == r + [(key, v)]
    ensures forall i :: 0 <= i < |r| && r[i].0 != key ==> r'[i] == r[i]
    ensures forall i :: 0 <= i < |r'| && r'[i].0 == key ==> r'[i].1 == v
  {
    if HasKey(r, key) then r[KeyIndex(r, key) := (key, v)] else r + [(key, v)]
  }

  /** In an object, the value read at a key is the one at that key's position. */
  lemma LookupAt(r: Record, i: nat)
    requires i < |r|
    ensures Lookup(r, r[i].0) == Some(r[i].1)
  {
  }

  /** Setting a key makes it read back as the new value. */
  lemma WithFieldLookupSame(r: Record, key: string, v: Value)
    ensures Lookup(WithField(r, key, v), key) == Some(v)
  {
    var r' := WithField(r, key, v);
    if HasKey(r, key) {
      var j :| 0 <= j < |r| && r[j].0 == key;
      LookupAt(r', j);
    } else {
      LookupAt(r', |r|);
    }
  }

  /** Setting a key leaves every other key reading as before. */
  lemma WithFieldLookupOther(r: Record, key: string, v: Value, k: string)
    requires k != key
    ensures Lookup(WithField(r, key, v), k) == Lookup(r, k)
  {
    var r' := WithField(r, key, v);
    if HasKey(r, k) {
      var j :| 0 <= j < |r| && r[j].0 == k;
      LookupAt(r, j);
      LookupAt(r', j);
    }
  }

  /** The names of the ten form fields, in the order the blank draft lists them. */
  const DraftKeys: seq<string> :=
    ["id", "name", "gender", "department", "position",
     "salary", "experience", "email", "password", "contact"]

  /** The blank draft: the ten fields, each the empty string. */
  function EmptyDraft(): (r: Record)
    ensures |r| == |DraftKeys|
    ensures forall i :: 0 <= i < |r| ==> r[i] == (DraftKeys[i], Str(""))
  {
    [("id", Str("")), ("name", Str("")), ("gender", Str("")),
     ("department", Str("")), ("position", Str("")), ("salary", Str("")),
     ("experience", Str("")), ("email", Str("")), ("password", Str("")),
     ("contact", Str(""))]
  }

  /** The first position holding `true`, if any. */
  function FirstTrue(bs: seq<bool>): (r: Option<nat>)
    ensures r.Some? ==> r.value < |bs| && bs[r.value] && forall j :: 0 <= j < r.value ==> !bs[j]
    ensures r.None? ==> forall j :: 0 <= j < |bs| ==> !bs[j]
  {
    if bs == [] then None
    else if bs[0] then Some(0)
    else match FirstTrue(bs[1..])
      case None => None
      case Some(i) => Some(i + 1)
  }

  /** Which fields, in visiting order, the form rejects. */
  function Rejected(fs: seq<Field>): (bs: seq<bool>)
    ensures |bs| == |fs| && forall i :: 0 <= i < |fs| ==> bs[i] == Blank(fs[i].1)
  {
    seq(|fs|, i requires 0 <= i < |fs| => Blank(fs[i].1))
  }

  /** The position of the first field, in visiting order, whose value the
      form rejects; None when every field is filled in. */
  function FirstBlank(fs: seq<Field>): (r: Option<nat>)
    ensures r.Some? ==>
      r.value < |fs| && Blank(fs[r.value].1) &&
      forall j :: 0 <= j < r.value ==> !Blank(fs[j].1)
    ensures r.None? ==> forall j :: 0 <= j < |fs| ==> !Blank(fs[j].1)
  {
    FirstTrue(Rejected(fs))
  }

  /** A draft passes validation exactly when no value is null, the number 0,
      or a string of white space only. */
  lemma NoBlankIff(fs: seq<Field>)
    ensures FirstBlank(fs) == None <==>
      forall i :: 0 <= i < |fs| ==>
        !fs[i].1.Null? && fs[i].1 != Num(0) &&
        !(fs[i].1.Str? && AllSpace(fs[i].1.s))
  {
  }

  /** The blank draft is rejected, and the field reported is `id`. */
  lemma EmptyDraftFailsOnId()
    ensures FirstBlank(EmptyDraft()) == Some(0)
    ensures EmptyDraft()[0].0 == "id"
  {
  }

  const MissingFieldPrefix := "Please fill out the "
  const MissingFieldSuffix := " field."

  /** `Please fill out the ${key} field.`: the key appears, unchanged, between
      the fixed opening and closing text, so the message names the field. */
  function MissingFieldMessage(key: string): (r: string)
    ensures |r| == |MissingFieldPrefix| + |key| + |MissingFieldSuffix|
    ensures r[..|MissingFieldPrefix|] == MissingFieldPrefix
    ensures r[|MissingFieldPrefix|..|MissingFieldPrefix| + |key|] == key
    ensures r[|MissingFieldPrefix| + |key|..] == MissingFieldSuffix
  {
    MissingFieldPrefix + key + MissingFieldSuffix
  }
}

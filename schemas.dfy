/**
 * `BaseStructModel.to_dict` (backend/users-service/app/lib/schemas.py): a msgspec
 * struct as a dict, leaving out the fields that are still UNSET.
 */
module Schemas {
  import opened Values

  /** A struct field's value: msgspec's UNSET marker or a value (None included). */
  datatype FieldValue = Unset | Set(value: Value)

  /** The struct as its `__struct_fields__`, in declaration order, each with its value. */
  type Struct = seq<(string, FieldValue)>

  /** An insertion-ordered dict. */
  type OrderedDict = seq<(string, Value)>

  function Keys(d: OrderedDict): (ks: seq<string>)
    ensures |ks| == |d| && forall k :: 0 <= k < |d| ==> ks[k] == d[k].0
  {
    seq(|d|, k requires 0 <= k < |d| => d[k].0)
  }

  /** `{f: getattr(self, f) for f in self.__struct_fields__ if getattr(self, f, None) != UNSET}`. */
  function ToDict(s: Struct): (d: OrderedDict)
    ensures |d| <= |s|
    ensures forall e :: e in d ==> (e.0, Set(e.1)) in s
    ensures forall f :: f in s && f.1.Set? ==> (f.0, f.1.value) in d
    decreases |s|
  {
    if |s| == 0 then []
    else if s[0].1.Unset? then ToDict(s[1..])
    else [(s[0].0, s[0].1.value)] + ToDict(s[1..])
  }

  /** The set fields, in declaration order. */
  function SetFieldNames(s: Struct): seq<string>
    decreases |s|
  {
    if |s| == 0 then [] else if s[0].1.Unset? then SetFieldNames(s[1..]) else [s[0].0] + SetFieldNames(s[1..])
  }

  /** The keys come out in the order of `__struct_fields__`, exactly the set fields. */
  lemma {:induction false} ToDictKeyOrder(s: Struct)
    ensures Keys(ToDict(s)) == SetFieldNames(s)
    decreases |s|
  {
    if |s| > 0 {
      ToDictKeyOrder(s[1..]);
      if s[0].1.Set? {
        assert Keys(ToDict(s)) == [s[0].0] + Keys(ToDict(s[1..]));
      }
    }
  }

  /** Setting every field makes the dict the whole struct; an all-UNSET struct gives {}. */
  lemma {:induction false} ToDictExtremes(s: Struct)
    ensures (forall k :: 0 <= k < |s| ==> s[k].1.Set?) ==> |ToDict(s)| == |s|
    ensures (forall k :: 0 <= k < |s| ==> s[k].1.Unset?) ==> ToDict(s) == []
    decreases |s|
  {
    if |s| > 0 {
      ToDictExtremes(s[1..]);
    }
  }
}

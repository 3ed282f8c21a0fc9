/**
 * A multipart form body as the browser's `FormData` holds it: an ordered list
 * of entries, each a key with either a text value or an uploaded file.
 */
module Multipart {
  import opened Leads

  datatype Part = Text(text: string) | Upload(file: File)

  datatype Entry = Entry(key: string, value: Part)

  /** `FormData.get`: the value of the first entry under `key`, or null. */
  function Get(form: seq<Entry>, key: string): Option<Part>
  {
    if form == [] then None
    else if form[0].key == key then Some(form[0].value)
    else Get(form[1..], key)
  }

  /** `Get` is null exactly when no entry has the key, and otherwise the value of the first entry that has it. */
  lemma {:induction false} GetSpec(form: seq<Entry>, key: string)
    ensures Get(form, key).None? <==> forall i :: 0 <= i < |form| ==> form[i].key != key
    ensures Get(form, key).Some? ==>
              exists i :: 0 <= i < |form| && form[i] == Entry(key, Get(form, key).value)
                          && forall j :: 0 <= j < i ==> form[j].key != key
  {
    if form != [] && form[0].key != key {
      GetSpec(form[1..], key);
      assert forall i :: 0 < i < |form| ==> form[i] == form[1..][i - 1];
      if Get(form, key).Some? {
        var i :| 0 <= i < |form[1..]| && form[1..][i] == Entry(key, Get(form, key).value)
                 && forall j :: 0 <= j < i ==> form[1..][j].key != key;
        assert form[i + 1] == Entry(key, Get(form, key).value);
      }
    } else if form != [] {
      assert form[0] == Entry(key, Get(form, key).value);
    }
  }

  /** `FormData.getAll`: the values of all entries under `key`, in order. */
  function GetAll(form: seq<Entry>, key: string): (r: seq<Part>)
    ensures |r| <= |form|
  {
    if form == [] then []
    else (if form[0].key == key then [form[0].value] else []) + GetAll(form[1..], key)
  }

  /** Every value `getAll` returns was submitted under that key. */
  lemma {:induction false} GetAllFrom(form: seq<Entry>, key: string)
    ensures forall p :: p in GetAll(form, key) ==> Entry(key, p) in form
  {
    if form != [] {
      GetAllFrom(form[1..], key);
      assert forall e :: e in form[1..] ==> e in form;
    }
  }

  /** The first entry under `key` determines `Get`, whatever follows it. */
  lemma {:induction false} GetAt(form: seq<Entry>, i: nat, key: string)
    requires i < |form| && form[i].key == key
    requires forall j :: 0 <= j < i ==> form[j].key != key
    ensures Get(form, key) == Some(form[i].value)
  {
    if i > 0 {
      assert form[0].key != key;
      assert forall j :: 0 <= j < i - 1 ==> form[1..][j] == form[j + 1];
      GetAt(form[1..], i - 1, key);
    }
  }

  lemma {:induction false} GetAllAppend(a: seq<Entry>, b: seq<Entry>, key: string)
    ensures GetAll(a + b, key) == GetAll(a, key) + GetAll(b, key)
  {
    if a == [] {
      assert a + b == b;
    } else {
      var head := if a[0].key == key then [a[0].value] else [];
      assert (a + b)[0] == a[0];
      assert (a + b)[1..] == a[1..] + b;
      assert GetAll(a + b, key) == head + GetAll(a[1..] + b, key);
      assert GetAll(a, key) == head + GetAll(a[1..], key);
      GetAllAppend(a[1..], b, key);
    }
  }

  lemma {:induction false} GetAllAbsent(form: seq<Entry>, key: string)
    requires forall i :: 0 <= i < |form| ==> form[i].key != key
    ensures GetAll(form, key) == []
  {
    if form != [] {
      GetAllAbsent(form[1..], key);
    }
  }
}

/** The Fetch standard's `Headers` object as the core uses it: a list of
    name/value pairs whose names compare case-insensitively. */
module HttpHeaders {

  import opened Wrappers
  import Text

  type HeaderList = seq<(string, string)>

  predicate NameIs(entry: (string, string), name: string) {
    Text.EqualsIgnoreCase(entry.0, name)
  }

  predicate Contains(list: HeaderList, name: string) {
    exists i :: 0 <= i < |list| && NameIs(list[i], name)
  }

  /** The values stored under `name`, in list order. */
  function Values(list: HeaderList, name: string): (r: seq<string>)
    ensures |r| <= |list|
    ensures r == [] <==> !Contains(list, name)
  {
    if list == [] then []
    else (if NameIs(list[0], name) then [list[0].1] else []) + Values(list[1..], name)
  }

  function Join(values: seq<string>, separator: string): string {
    if values == [] then ""
    else if |values| == 1 then values[0]
    else values[0] + separator + Join(values[1..], separator)
  }

  /** `headers.get(name)`: every value under the name, joined by ", ". */
  function Get(list: HeaderList, name: string): (r: Option<string>)
    ensures r.None? <==> !Contains(list, name)
  {
    var values := Values(list, name);
    if values == [] then None else Some(Join(values, ", "))
  }

  /** Every entry except those named `name`. */
  function RemoveAll(list: HeaderList, name: string): (r: HeaderList)
    ensures Values(r, name) == []
    ensures forall other :: !Text.EqualsIgnoreCase(other, name) ==> Values(r, other) == Values(list, other)
  {
    if list == [] then []
    else if NameIs(list[0], name) then RemoveAll(list[1..], name)
    else [list[0]] + RemoveAll(list[1..], name)
  }

  lemma ValuesOfConcat(a: HeaderList, b: HeaderList, name: string)
    ensures Values(a + b, name) == Values(a, name) + Values(b, name)
  {
    if a != [] {
      assert (a + b)[1..] == a[1..] + b;
      ValuesOfConcat(a[1..], b, name);
    } else {
      assert a + b == b;
    }
  }

  /** The first entry named `name` takes the new value and the others
      named `name` go; a list without the name gets one appended. */
  function ReplaceFirst(list: HeaderList, name: string, value: string): (r: HeaderList)
    requires Contains(list, name)
    ensures Values(r, name) == [value]
    ensures forall other :: !Text.EqualsIgnoreCase(other, name) ==> Values(r, other) == Values(list, other)
  {
    if NameIs(list[0], name) then
      var rest := RemoveAll(list[1..], name);
      ValuesOfConcat([(list[0].0, value)], rest, name);
      forall other | !Text.EqualsIgnoreCase(other, name)
        ensures Values([(list[0].0, value)] + rest, other) == Values(list, other)
      {
        ValuesOfConcat([(list[0].0, value)], rest, other);
      }
      [(list[0].0, value)] + rest
    else
      assert exists i :: 0 <= i < |list[1..]| && NameIs(list[1..][i], name) by {
        var i :| 0 <= i < |list| && NameIs(list[i], name);
        assert list[1..][i - 1] == list[i];
      }
      var rest := ReplaceFirst(list[1..], name, value);
      ValuesOfConcat([list[0]], rest, name);
      forall other | !Text.EqualsIgnoreCase(other, name)
        ensures Values([list[0]] + rest, other) == Values(list, other)
      {
        ValuesOfConcat([list[0]], rest, other);
      }
      [list[0]] + rest
  }

  /** `headers.set(name, value)` on the list: afterwards `name` holds exactly
      `value`, and every other name keeps its values. */
  function SetEntry(list: HeaderList, name: string, value: string): (r: HeaderList)
    ensures Values(r, name) == [value]
    ensures Get(r, name) == Some(value)
    ensures forall other :: !Text.EqualsIgnoreCase(other, name) ==> Values(r, other) == Values(list, other)
  {
    if Contains(list, name) then
      ReplaceFirst(list, name, value)
    else
      ValuesOfConcat(list, [(name, value)], name);
      forall other | !Text.EqualsIgnoreCase(other, name)
        ensures Values(list + [(name, value)], other) == Values(list, other)
      {
        ValuesOfConcat(list, [(name, value)], other);
      }
      list + [(name, value)]
  }

  /** `set` leaves every other name as it was, present or absent. */
  lemma SetKeepsOthers(list: HeaderList, name: string, value: string, other: string)
    requires !Text.EqualsIgnoreCase(other, name)
    ensures Get(SetEntry(list, name, value), other) == Get(list, other)
    ensures Contains(SetEntry(list, name, value), other) == Contains(list, other)
  {
    assert Values(SetEntry(list, name, value), other) == Values(list, other);
  }

  /** Two names that differ, ignoring case, at some position are different
      header names. */
  lemma DiffersAt(a: string, b: string, k: nat)
    requires k < |a| && k < |b| && Text.LowerChar(a[k]) != Text.LowerChar(b[k])
    ensures !Text.EqualsIgnoreCase(a, b)
  {
    assert Text.Lower(a)[k] != Text.Lower(b)[k];
  }

  /** A name carried by exactly one entry reads back as that entry's value. */
  lemma {:induction false} GetUnique(list: HeaderList, i: nat, name: string)
    requires i < |list| && NameIs(list[i], name)
    requires forall j :: 0 <= j < |list| && j != i ==> !NameIs(list[j], name)
    ensures Values(list, name) == [list[i].1]
    ensures Get(list, name) == Some(list[i].1)
  {
    if i == 0 {
      assert !Contains(list[1..], name) by {
        forall j | 0 <= j < |list[1..]| ensures !NameIs(list[1..][j], name) {
          assert list[1..][j] == list[j + 1];
        }
      }
    } else {
      forall j | 0 <= j < |list[1..]| && j != i - 1 ensures !NameIs(list[1..][j], name) {
        assert list[1..][j] == list[j + 1];
      }
      GetUnique(list[1..], i - 1, name);
    }
  }

  /** A `Headers` object, updated in place by `append` and `set`. */
  class Headers {
    var entries: HeaderList

    /** `new Headers(init)`: the initial pairs, in order. */
    constructor (init: HeaderList)
      ensures entries == init
    {
      entries := init;
    }

    /** `headers.has(name)` */
    predicate Has(name: string)
      reads this
    {
      Contains(entries, name)
    }

    /** `headers.append(name, value)` */
    method Append(name: string, value: string)
      modifies this
      ensures entries == old(entries) + [(name, value)]
    {
      entries := entries + [(name, value)];
    }

    /** `headers.set(name, value)` */
    method Set(name: string, value: string)
      modifies this
      ensures entries == SetEntry(old(entries), name, value)
    {
      entries := SetEntry(entries, name, value);
    }
  }
}

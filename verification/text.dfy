/** String helpers the prompt builders rely on: Python's `", ".join(...)`,
    its inverse on lists whose items do not themselves contain the separator,
    and "occurs somewhere in". */
module Text {
  import opened Basics

  /** The separator of `', '.join(items)`. */
  const Sep: string := ", "

  /** `', '.join(items)`. */
  function Join(items: seq<string>): string
  {
    if |items| == 0 then ""
    else if |items| == 1 then items[0]
    else items[0] + Sep + Join(items[1..])
  }

  /** `item` does not contain the separator. */
  predicate NoSep(item: string) {
    forall i :: 0 <= i < |item| - 1 ==> !(item[i] == ',' && item[i + 1] == ' ')
  }

  /** The position of the first separator in `s`, if there is one. */
  function FirstSep(s: string): (r: Option<nat>)
    ensures r.Some? ==> r.value + 2 <= |s| && s[r.value] == ',' && s[r.value + 1] == ' '
  {
    if |s| < 2 then None
    else if s[0] == ',' && s[1] == ' ' then Some(0)
    else match FirstSep(s[1..])
      case None => None
      case Some(i) => Some(i + 1)
  }

  /** `s.split(', ')`: cut `s` at every separator, left to right. */
  function Split(s: string): seq<string>
    decreases |s|
  {
    match FirstSep(s)
    case None => [s]
    case Some(i) => [s[..i]] + Split(s[i + 2..])
  }

  lemma {:induction false} FirstSepNone(item: string)
    requires NoSep(item)
    ensures FirstSep(item) == None
    decreases |item|
  {
    if |item| >= 2 {
      assert NoSep(item[1..]) by {
        forall i | 0 <= i < |item[1..]| - 1
          ensures !(item[1..][i] == ',' && item[1..][i + 1] == ' ')
        {
          assert item[1..][i] == item[i + 1] && item[1..][i + 1] == item[i + 2];
        }
      }
      FirstSepNone(item[1..]);
    }
  }

  lemma {:induction false} FirstSepAfter(item: string, rest: string)
    requires NoSep(item)
    ensures FirstSep(item + Sep + rest) == Some(|item|)
    decreases |item|
  {
    var s := item + Sep + rest;
    if |item| == 0 {
      assert s[0] == ',' && s[1] == ' ';
    } else {
      assert s[0] == item[0];
      assert s[1] == if |item| >= 2 then item[1] else ',';
      assert NoSep(item[1..]) by {
        forall i | 0 <= i < |item[1..]| - 1
          ensures !(item[1..][i] == ',' && item[1..][i + 1] == ' ')
        {
          assert item[1..][i] == item[i + 1] && item[1..][i + 1] == item[i + 2];
        }
      }
      assert s[1..] == item[1..] + Sep + rest;
      FirstSepAfter(item[1..], rest);
    }
  }

  /** Joining a non-empty list whose items contain no separator and splitting
      the result gives back the list, item for item and in order. */
  lemma {:induction false} SplitJoin(items: seq<string>)
    requires |items| > 0
    requires forall k :: 0 <= k < |items| ==> NoSep(items[k])
    ensures Split(Join(items)) == items
    decreases |items|
  {
    if |items| == 1 {
      FirstSepNone(items[0]);
    } else {
      var rest := Join(items[1..]);
      FirstSepAfter(items[0], rest);
      var s := items[0] + Sep + rest;
      assert s[..|items[0]|] == items[0];
      assert s[|items[0]| + 2..] == rest;
      SplitJoin(items[1..]);
      assert [items[0]] + items[1..] == items;
    }
  }

  /** `sub` occurs in `s` starting at position `i`. */
  predicate InfixAt(sub: string, s: string, i: nat) {
    i + |sub| <= |s| && s[i..i + |sub|] == sub
  }

  /** `sub in s`, in Python's sense. */
  predicate Contains(s: string, sub: string) {
    exists i: nat | i <= |s| :: InfixAt(sub, s, i)
  }

  /** A template `a + x + b + y + c` carries both of its slots. */
  lemma ContainsSlots(a: string, x: string, b: string, y: string, c: string)
    ensures Contains(a + x + b + y + c, x) && Contains(a + x + b + y + c, y)
  {
    var s := a + x + b + y + c;
    assert s[|a|..|a| + |x|] == x;
    assert InfixAt(x, s, |a|);
    assert s[|a + x + b|..|a + x + b| + |y|] == y;
    assert InfixAt(y, s, |a + x + b|);
  }
}

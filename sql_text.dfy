/**
 * The pieces of Python and of the psycopg2 driver that the query builder
 * relies on, stated on `string` (a `seq<char>`):
 *  - `sep.join(parts)`, Python's string join;
 *  - `t in s`, Python's substring test;
 *  - the number of `%s` placeholders psycopg2 finds when it scans the
 *    query text to bind the parameter tuple.
 */
module SqlText {

  /** Python's `sep.join(parts)`. */
  function Join(parts: seq<string>, sep: string): (r: string)
    ensures parts == [] ==> r == []
    ensures |parts| == 1 ==> r == parts[0]
    ensures |parts| >= 1 ==> parts[0] <= r
  {
    if |parts| == 0 then ""
    else if |parts| == 1 then parts[0]
    else parts[0] + sep + Join(parts[1..], sep)
  }

  /** `t` occurs in `s` starting at index `i`. */
  predicate OccursAt(s: string, t: string, i: int)
  {
    0 <= i <= |s| - |t| && s[i..i + |t|] == t
  }

  lemma JoinTwo(a: string, b: string, sep: string)
    ensures Join([a, b], sep) == a + sep + b
  {
    assert [a, b][1..] == [b];
  }

  /** Python's substring test `t in s`. */
  predicate Contains(s: string, t: string)
  {
    exists i | 0 <= i <= |s| - |t| :: OccursAt(s, t, i)
  }

  /**
   * The number of `%s` placeholders psycopg2 sees in a query text. The
   * driver scans left to right; a `%` consumes the character after it as
   * its format character, so `%%` is an escaped percent sign and `%s` is
   * one placeholder.
   */
  function Placeholders(s: string): nat
    decreases |s|
  {
    if |s| < 2 then 0
    else if s[0] == '%' then (if s[1] == 's' then 1 else 0) + Placeholders(s[2..])
    else Placeholders(s[1..])
  }

  /** A text whose scan cannot run into the text that follows it. */
  predicate EndsClean(s: string)
  {
    s == [] || s[|s| - 1] != '%'
  }

  lemma {:induction false} NoPercentNoPlaceholders(s: string)
    requires '%' !in s
    ensures Placeholders(s) == 0
    decreases |s|
  {
    if |s| >= 2 {
      assert s[0] != '%';
      assert '%' !in s[1..] by {
        forall k | 0 <= k < |s| - 1 ensures s[1..][k] != '%' {
          assert s[1..][k] == s[k + 1];
        }
      }
      NoPercentNoPlaceholders(s[1..]);
    }
  }

  /** Placeholders add up over a concatenation whose left part ends cleanly. */
  lemma {:induction false} PlaceholdersAppend(a: string, b: string)
    requires EndsClean(a)
    ensures Placeholders(a + b) == Placeholders(a) + Placeholders(b)
    decreases |a|
  {
    if a == [] {
      assert a + b == b;
    } else if |a + b| < 2 {
      assert b == [];
      assert a + b == a;
    } else if a[0] == '%' {
      assert |a| >= 2;
      assert (a + b)[1] == a[1];
      assert (a + b)[2..] == a[2..] + b;
      PlaceholdersAppend(a[2..], b);
    } else {
      assert (a + b)[1..] == a[1..] + b;
      if |a| >= 2 {
        PlaceholdersAppend(a[1..], b);
      } else {
        assert a[1..] == [];
        assert (a + b)[1..] == b;
      }
    }
  }

  /** Text without `%` around a middle part adds no placeholder to it. */
  lemma PlaceholdersInPlainContext(a: string, b: string, c: string)
    requires '%' !in a && EndsClean(b) && '%' !in c
    ensures Placeholders(a + b + c) == Placeholders(b)
  {
    NoPercentNoPlaceholders(a);
    NoPercentNoPlaceholders(c);
    PlaceholdersAppend(b, c);
    PlaceholdersAppend(a, b + c);
    assert a + b + c == a + (b + c);
  }

  /**
   * Joining parts that carry one placeholder each, with a separator that
   * carries none, yields exactly one placeholder per part.
   */
  lemma {:induction false} JoinPlaceholders(parts: seq<string>, sep: string)
    requires forall k :: 0 <= k < |parts| ==> Placeholders(parts[k]) == 1 && EndsClean(parts[k])
    requires '%' !in sep && sep != []
    ensures Placeholders(Join(parts, sep)) == |parts|
    ensures EndsClean(Join(parts, sep))
    decreases |parts|
  {
    if |parts| >= 2 {
      var head, rest := parts[0], Join(parts[1..], sep);
      assert EndsClean(head + sep);
      NoPercentNoPlaceholders(sep);
      PlaceholdersAppend(head, sep);
      PlaceholdersAppend(head + sep, rest);
      JoinPlaceholders(parts[1..], sep);
      assert Join(parts, sep) == (head + sep) + rest;
      assert |rest| >= 2;
    }
  }

  /** A text that contains `t` contains every character of `t`. */
  lemma ContainsHasChars(s: string, t: string, k: nat)
    requires Contains(s, t) && k < |t|
    ensures t[k] in s
  {
    var i :| 0 <= i <= |s| - |t| && OccursAt(s, t, i);
    assert s[i..i + |t|][k] == t[k];
  }

  /** A text that lacks some character of `t` does not contain `t`. */
  lemma MissingCharNotContained(s: string, t: string, k: nat)
    requires k < |t| && t[k] !in s
    ensures !Contains(s, t)
  {
    if Contains(s, t) {
      ContainsHasChars(s, t, k);
    }
  }

  /** A text contains whatever starts its second part. */
  lemma ContainsPrefixOfTail(a: string, b: string, t: string)
    requires t <= b
    ensures Contains(a + b, t)
  {
    assert OccursAt(a + b, t, |a|) by {
      assert (a + b)[|a|..|a| + |t|] == b[..|t|];
    }
  }

  /** Whatever contains `t` still does after text is added on either side. */
  lemma ContainsInContext(a: string, t: string, b: string)
    ensures Contains(a + t + b, t)
  {
    assert OccursAt(a + t + b, t, |a|) by {
      assert (a + t + b)[|a|..|a| + |t|] == t;
    }
  }
}

/**
 Go's `strings.Join`, which the contacts service uses to store a list of phone
 numbers in one text column, and `strings.Split`, its inverse, which states
 when that column can be read back into the original list.  The separator is a
 single character here; the service always passes `","`.
 */
module GoStrings {

  /** `strings.Join(elems, string(sep))`: no elements give "", one element is returned as is. */
  function Join(elems: seq<string>, sep: char): string
  {
    if |elems| == 0 then ""
    else if |elems| == 1 then elems[0]
    else elems[0] + [sep] + Join(elems[1..], sep)
  }

  /** The number of occurrences of `c` in `s`. */
  function Count(s: string, c: char): nat
  {
    if s == [] then 0 else (if s[0] == c then 1 else 0) + Count(s[1..], c)
  }

  /**
   `strings.Split(s, string(sep))`: the fields between separators, so there is
   always one more field than separators, and "" splits to [""].
   */
  function Split(s: string, sep: char): (fields: seq<string>)
    ensures |fields| == Count(s, sep) + 1
    ensures forall i | 0 <= i < |fields| :: sep !in fields[i]
  {
    if s == [] then [""]
    else
      var rest := Split(s[1..], sep);
      if s[0] == sep then [""] + rest
      else [[s[0]] + rest[0]] + rest[1..]
  }

  /** A string without the separator is a single field. */
  lemma {:induction false} SplitWithoutSeparator(x: string, sep: char)
    requires sep !in x
    ensures Split(x, sep) == [x]
  {
    if x != [] {
      assert x[0] in x;
      SplitWithoutSeparator(x[1..], sep);
      assert [x[0]] + x[1..] == x;
    }
  }

  /** A separator-free field followed by a separator is split off as the first field. */
  lemma {:induction false} SplitLeadingField(x: string, sep: char, t: string)
    requires sep !in x
    ensures Split(x + [sep] + t, sep) == [x] + Split(t, sep)
  {
    var s := x + [sep] + t;
    if x == [] {
      assert s[1..] == t;
    } else {
      assert s[1..] == x[1..] + [sep] + t;
      SplitLeadingField(x[1..], sep, t);
      assert [x[0]] + x[1..] == x;
    }
  }

  /** Joining fields that contain no separator and splitting again gives the fields back, for a non-empty list. */
  lemma {:induction false} SplitJoin(elems: seq<string>, sep: char)
    requires |elems| > 0
    requires forall i | 0 <= i < |elems| :: sep !in elems[i]
    ensures Split(Join(elems, sep), sep) == elems
  {
    if |elems| == 1 {
      SplitWithoutSeparator(elems[0], sep);
    } else {
      SplitJoin(elems[1..], sep);
      SplitLeadingField(elems[0], sep, Join(elems[1..], sep));
      assert [elems[0]] + elems[1..] == elems;
    }
  }

  /** Splitting and joining again always restores the string. */
  lemma {:induction false} JoinSplit(s: string, sep: char)
    ensures Join(Split(s, sep), sep) == s
  {
    if s != [] {
      var rest := Split(s[1..], sep);
      JoinSplit(s[1..], sep);
      if s[0] == sep {
        assert ([""] + rest)[1..] == rest;
        assert s == [sep] + s[1..];
      } else {
        var fields := [[s[0]] + rest[0]] + rest[1..];
        assert fields[1..] == rest[1..];
        assert s == [s[0]] + s[1..];
      }
    }
  }

  /** The empty list and the list of one empty string are joined alike: Join is not injective there. */
  lemma EmptyListJoinsLikeEmptyField(sep: char)
    ensures Join([], sep) == Join([""], sep) == ""
    ensures Split(Join([], sep), sep) == [""]
  {
  }
}

/**
  Python's str.split with an explicit one-character separator, and its
  inverse, joining the fields back with the separator.
 */
module Text {

  /** The fields written back to back with the separator between them. */
  function Join(parts: seq<string>, sep: char): string
    requires |parts| >= 1
  {
    if |parts| == 1 then parts[0] else parts[0] + [sep] + Join(parts[1..], sep)
  }

  /** s.split(sep): the separator-free pieces of s, in order. There is
      always at least one field. */
  function Split(s: string, sep: char): (parts: seq<string>)
    ensures |parts| >= 1
    ensures forall i :: 0 <= i < |parts| ==> sep !in parts[i]
    decreases |s|
  {
    if |s| == 0 then [""]
    else
      var rest := Split(s[1..], sep);
      if s[0] == sep then [""] + rest
      else [[s[0]] + rest[0]] + rest[1..]
  }

  /** There is one more field than there are separators in the text. */
  lemma {:induction false} SplitCount(s: string, sep: char)
    ensures |Split(s, sep)| == multiset(s)[sep] + 1
    decreases |s|
  {
    if |s| > 0 {
      SplitCount(s[1..], sep);
      assert s == [s[0]] + s[1..];
      assert multiset(s) == multiset{s[0]} + multiset(s[1..]);
    }
  }

  /** Join unfolded once: a head field followed by at least one more. */
  lemma JoinCons(a: string, rest: seq<string>, sep: char)
    requires |rest| >= 1
    ensures Join([a] + rest, sep) == a + [sep] + Join(rest, sep)
  {
    assert ([a] + rest)[1..] == rest;
  }

  /** One character in front of a text whose split joins back. */
  lemma JoinSplitCons(c: char, t: string, sep: char)
    requires Join(Split(t, sep), sep) == t
    ensures Join(Split([c] + t, sep), sep) == [c] + t
  {
    var s := [c] + t;
    var rest := Split(t, sep);
    assert s[0] == c && s[1..] == t;
    if c == sep {
      assert Split(s, sep) == [""] + rest;
      JoinCons("", rest, sep);
      assert "" + [sep] + t == [c] + t;
    } else if |rest| == 1 {
      assert Split(s, sep) == [[c] + rest[0]];
      assert Join(rest, sep) == rest[0];
    } else {
      assert rest == [rest[0]] + rest[1..];
      var tail := Join(rest[1..], sep);
      calc {
        Join(Split(s, sep), sep);
        { assert Split(s, sep) == [[c] + rest[0]] + rest[1..]; }
        Join([[c] + rest[0]] + rest[1..], sep);
        { JoinCons([c] + rest[0], rest[1..], sep); }
        ([c] + rest[0]) + [sep] + tail;
        [c] + (rest[0] + [sep] + tail);
        { JoinCons(rest[0], rest[1..], sep); }
        [c] + Join(rest, sep);
      }
    }
  }

  /** Joining the fields of a split with the separator gives the text back. */
  lemma {:induction false} JoinSplit(s: string, sep: char)
    ensures Join(Split(s, sep), sep) == s
    decreases |s|
  {
    if |s| > 0 {
      JoinSplit(s[1..], sep);
      JoinSplitCons(s[0], s[1..], sep);
      assert [s[0]] + s[1..] == s;
    }
  }

  /** A separator-free head, then the separator, splits to that head and
      the split of the tail. */
  lemma {:induction false} SplitAfterField(a: string, t: string, sep: char)
    requires sep !in a
    ensures Split(a + [sep] + t, sep) == [a] + Split(t, sep)
    decreases |a|
  {
    var s := a + [sep] + t;
    if |a| == 0 {
      assert s[1..] == t;
    } else {
      assert s[1..] == a[1..] + [sep] + t;
      SplitAfterField(a[1..], t, sep);
      assert [a[0]] + a[1..] == a;
    }
  }

  /** A separator-free text is one field. */
  lemma {:induction false} SplitSingleField(a: string, sep: char)
    requires sep !in a
    ensures Split(a, sep) == [a]
    decreases |a|
  {
    if |a| > 0 {
      SplitSingleField(a[1..], sep);
      assert [a[0]] + a[1..] == a;
    }
  }

  /** Splitting undoes joining whenever no field holds the separator. */
  lemma {:induction false} SplitJoin(parts: seq<string>, sep: char)
    requires |parts| >= 1
    requires forall i :: 0 <= i < |parts| ==> sep !in parts[i]
    ensures Split(Join(parts, sep), sep) == parts
    decreases |parts|
  {
    if |parts| == 1 {
      SplitSingleField(parts[0], sep);
    } else {
      SplitJoin(parts[1..], sep);
      SplitAfterField(parts[0], Join(parts[1..], sep), sep);
      assert [parts[0]] + parts[1..] == parts;
    }
  }

  /** The first field is the text before the first separator, and the
      second field starts right after it. */
  lemma {:induction false} FirstFieldBeforeSeparator(s: string, sep: char)
    ensures var parts := Split(s, sep);
      && parts[0] <= s
      && (|parts| == 1 <==> sep !in s)
      && (|parts| > 1 ==> |parts[0]| < |s| && s[|parts[0]|] == sep && s[|parts[0]| + 1..] == Join(parts[1..], sep))
  {
    var parts := Split(s, sep);
    JoinSplit(s, sep);
    if |parts| > 1 {
      assert parts == [parts[0]] + parts[1..];
      JoinCons(parts[0], parts[1..], sep);
      assert s == parts[0] + [sep] + Join(parts[1..], sep);
      assert (parts[0] + [sep] + Join(parts[1..], sep))[|parts[0]| + 1..] == Join(parts[1..], sep);
      assert sep in s by { assert s[|parts[0]|] == sep; }
    } else {
      assert s == parts[0];
    }
  }
}

/**
 * The comma split used by the chart data model: `String.split(",")` of the
 * Java standard library (a single literal separator, limit 0).
 *
 * Java's rule is: if the separator does not occur, the result is the input
 * itself as a one-element array (so `""` splits to `[""]`); otherwise the
 * input is cut at every separator and the trailing empty fields are removed
 * (so `","` splits to `[]` and `"a,,"` to `["a"]`).  Leading and inner empty
 * fields are kept.
 */
module JavaSplit {

  const Comma: char := ','

  /** Every field between separators, none dropped: k commas give k + 1 fields. */
  function Fields(s: string): (fs: seq<string>)
    ensures |fs| >= 1
    ensures forall i :: 0 <= i < |fs| ==> Comma !in fs[i]
    ensures Comma !in s ==> fs == [s]
  {
    if |s| == 0 then [""]
    else if s[0] == Comma then [""] + Fields(s[1..])
    else
      var rest := Fields(s[1..]);
      assert Comma !in s ==> Comma !in s[1..] && s == [s[0]] + s[1..];
      [[s[0]] + rest[0]] + rest[1..]
  }

  /** Puts the separator back between consecutive fields. */
  function Join(fs: seq<string>): string
    requires |fs| >= 1
  {
    if |fs| == 1 then fs[0] else fs[0] + [Comma] + Join(fs[1..])
  }

  /** Removes the empty fields at the end of the sequence. */
  function StripTrailingEmpty(fs: seq<string>): (r: seq<string>)
    ensures |r| <= |fs| && r == fs[..|r|]
    ensures forall i :: |r| <= i < |fs| ==> fs[i] == ""
    ensures |r| == 0 || r[|r| - 1] != ""
  {
    if |fs| > 0 && fs[|fs| - 1] == "" then StripTrailingEmpty(fs[..|fs| - 1]) else fs
  }

  /**
   * `s.split(",")`: the last field kept is non-empty, except that the empty
   * text gives the one empty field.
   */
  function Split(s: string): (r: seq<string>)
    ensures s == "" <==> r == [""]
    ensures s != "" ==> |r| == 0 || r[|r| - 1] != ""
  {
    if Comma !in s then [s] else StripTrailingEmpty(Fields(s))
  }

  /**
   * The fields Java's split returns are a prefix of all the fields, and only
   * empty fields are left off.
   */
  lemma SplitDropsOnlyTrailingEmpty(s: string)
    ensures var r := Split(s);
      && |r| <= |Fields(s)| && r == Fields(s)[..|r|]
      && (forall i :: |r| <= i < |Fields(s)| ==> Fields(s)[i] == "")
  {
  }

  /** Splitting and joining again gives back the text. */
  lemma {:induction false} JoinFields(s: string)
    ensures Join(Fields(s)) == s
  {
    if |s| == 0 {
    } else if s[0] == Comma {
      JoinFields(s[1..]);
      assert Fields(s)[1..] == Fields(s[1..]);
    } else {
      var rest := Fields(s[1..]);
      JoinFields(s[1..]);
      if |rest| == 1 {
        assert Join(Fields(s)) == [s[0]] + rest[0];
      } else {
        assert Fields(s)[1..] == rest[1..];
        assert Join(rest) == rest[0] + [Comma] + Join(rest[1..]);
      }
    }
  }

  /** Joining comma-free fields and splitting again gives back the fields. */
  lemma {:induction false} FieldsJoin(fs: seq<string>)
    requires |fs| >= 1
    requires forall i :: 0 <= i < |fs| ==> Comma !in fs[i]
    ensures Fields(Join(fs)) == fs
  {
    if |fs| == 1 {
    } else {
      FieldsJoin(fs[1..]);
      FieldsPrefix(fs[0], Join(fs[1..]));
      assert [""] + fs[1..] == [""] + Fields(Join(fs[1..]));
    }
  }

  /** A comma-free head followed by a comma becomes a field of its own. */
  lemma {:induction false} FieldsPrefix(head: string, tail: string)
    requires Comma !in head
    ensures Fields(head + [Comma] + tail) == [head] + Fields(tail)
  {
    if |head| == 0 {
      assert head + [Comma] + tail == [Comma] + tail;
      assert ([Comma] + tail)[1..] == tail;
    } else {
      var s := head + [Comma] + tail;
      assert s[0] == head[0];
      assert s[1..] == head[1..] + [Comma] + tail;
      FieldsPrefix(head[1..], tail);
      assert [head[0]] + head[1..] == head;
    }
  }

  /** `",".split(",")` is the empty array. */
  lemma SplitOnlyComma()
    ensures Split(",") == []
  {
    assert Comma in ",";
    assert Fields(",") == ["", ""];
    assert ["", ""][..1] == [""] && [""][..0] == [];
  }

  /** `"1,2,,".split(",")` drops the two trailing empty fields. */
  lemma SplitTrailingEmpty()
    ensures Split("1,2,,") == ["1", "2"]
  {
    assert "1,2,,"[1] == Comma;
    assert Fields("1,2,,") == ["1", "2", "", ""] by {
      assert Fields(",") == ["", ""];
      assert Fields(",,") == ["", "", ""];
      assert "2,,"[0] == '2' && "2,,"[1..] == ",," && ['2'] + "" == "2";
      assert Fields("2,,") == ["2", "", ""];
      assert Fields(",2,,") == ["", "2", "", ""];
      assert "1,2,,"[0] == '1' && "1,2,,"[1..] == ",2,," && ['1'] + "" == "1";
    }
    assert StripTrailingEmpty(["1", "2", "", ""]) == ["1", "2"] by {
      assert ["1", "2", "", ""][..3] == ["1", "2", ""];
      assert ["1", "2", ""][..2] == ["1", "2"];
    }
  }

  /** `",a".split(",")` keeps the leading empty field. */
  lemma SplitLeadingEmpty()
    ensures Split(",a") == ["", "a"]
  {
    assert ",a"[0] == Comma;
    assert Fields("a") == ["a"];
    assert Fields(",a") == ["", "a"];
  }
}

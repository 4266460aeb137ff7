/** The encodings the converter's tests spell out, derived from the
    definition of `json.dumps`. */
module JsonExamples {
  import opened Wrappers
  import opened Text
  import opened PyValues
  import opened JsonDumps

  /** A string of characters the encoder copies is written between quotes
      as it is. */
  lemma {:induction false} PlainEscape(w: string)
    requires forall i :: 0 <= i < |w| ==> Plain(w[i])
    ensures Escape(w) == w
  {
    if w != [] {
      PlainEscape(w[1..]);
    }
  }

  lemma Word(w: string)
    requires forall i :: 0 <= i < |w| ==> Plain(w[i])
    ensures Dumps(Str(w)) == Some("\"" + w + "\"")
    ensures KeyText(Str(w)) == Some(w) && Quote(w) == "\"" + w + "\""
  {
    PlainEscape(w);
  }

  /** One more item at the end of a list. */
  lemma ItemsSnoc(items: seq<Value>, x: Value, ps: seq<string>, p: string)
    requires DumpsItems(items) == Some(ps) && Dumps(x) == Some(p)
    ensures DumpsItems(items + [x]) == Some(ps + [p])
  {
    assert (items + [x])[..|items|] == items;
  }

  /** A dictionary of one entry. */
  lemma SingleEntry(k: Value, v: Value, key: string, p: string)
    requires KeyText(k) == Some(key) && Dumps(v) == Some(p)
    ensures Dumps(Dict([(k, v)])) == Some("{" + Quote(key) + ": " + p + "}")
  {
    var es := [(k, v)];
    assert es[..0] == [];
    assert DumpsMember(es[0]) == Some(Quote(key) + ": " + p);
    assert DumpsEntries(es) == Some([] + [Quote(key) + ": " + p]);
    assert [] + [Quote(key) + ": " + p] == [Quote(key) + ": " + p];
    assert Join(", ", [Quote(key) + ": " + p]) == Quote(key) + ": " + p;
    assert "{" + (Quote(key) + ": " + p) + "}" == "{" + Quote(key) + ": " + p + "}";
  }

  lemma ListItems()
    ensures DumpsItems([Int(1), Int(2), Int(3), Str("hello")]) == Some(["1", "2", "3", "\"hello\""])
  {
    assert Dumps(Int(1)) == Some("1") && Dumps(Int(2)) == Some("2") && Dumps(Int(3)) == Some("3");
    Word("hello");
    assert "\"" + "hello" + "\"" == "\"hello\"";
    ItemsSnoc([], Int(1), [], "1");
    assert [] + [Int(1)] == [Int(1)] && [] + ["1"] == ["1"];
    ItemsSnoc([Int(1)], Int(2), ["1"], "2");
    assert [Int(1)] + [Int(2)] == [Int(1), Int(2)] && ["1"] + ["2"] == ["1", "2"];
    ItemsSnoc([Int(1), Int(2)], Int(3), ["1", "2"], "3");
    assert [Int(1), Int(2)] + [Int(3)] == [Int(1), Int(2), Int(3)] && ["1", "2"] + ["3"] == ["1", "2", "3"];
    ItemsSnoc([Int(1), Int(2), Int(3)], Str("hello"), ["1", "2", "3"], "\"hello\"");
    assert [Int(1), Int(2), Int(3)] + [Str("hello")] == [Int(1), Int(2), Int(3), Str("hello")];
    assert ["1", "2", "3"] + ["\"hello\""] == ["1", "2", "3", "\"hello\""];
  }

  lemma ListJoin()
    ensures Join(", ", ["1", "2", "3", "\"hello\""]) == "1, 2, 3, \"hello\""
  {
    var ps := ["1", "2", "3", "\"hello\""];
    assert ps[..3][..2][..1] == ["1"];
    assert Join(", ", ps[..3][..2]) == "1, 2";
    assert Join(", ", ps[..3]) == "1, 2, 3";
  }

  /** `json.dumps([1, 2, 3, "hello"])`. */
  lemma ListExample()
    ensures Dumps(List([Int(1), Int(2), Int(3), Str("hello")])) == Some("[1, 2, 3, \"hello\"]")
  {
    ListItems();
    ListJoin();
    assert "[" + "1, 2, 3, \"hello\"" + "]" == "[1, 2, 3, \"hello\"]";
  }

  lemma InnerObject()
    ensures Dumps(Dict([(Str("inner"), Str("value"))])) == Some("{\"inner\": \"value\"}")
  {
    Word("inner");
    Word("value");
    SingleEntry(Str("inner"), Str("value"), "inner", "\"" + "value" + "\"");
    InnerText();
  }

  lemma InnerText()
    ensures "{" + ("\"" + "inner" + "\"") + ": " + ("\"" + "value" + "\"") + "}" == "{\"inner\": \"value\"}"
  {
    assert "\"" + "inner" + "\"" + ": " == "\"inner\": ";
    assert "\"" + "value" + "\"" + "}" == "\"value\"}";
  }

  lemma NestedText()
    ensures "{" + ("\"" + "outer" + "\"") + ": " + "{\"inner\": \"value\"}" + "}" == "{\"outer\": {\"inner\": \"value\"}}"
  {
    assert "\"" + "outer" + "\"" + ": " == "\"outer\": ";
    assert "{" + "\"outer\": " == "{\"outer\": ";
    assert "{\"outer\": " + "{\"inner\": \"value\"}" == "{\"outer\": {\"inner\": \"value\"}";
  }

  /** `json.dumps({"outer": {"inner": "value"}})`. */
  lemma NestedExample()
    ensures Dumps(Dict([(Str("outer"), Dict([(Str("inner"), Str("value"))]))])) ==
      Some("{\"outer\": {\"inner\": \"value\"}}")
  {
    InnerObject();
    Word("outer");
    SingleEntry(Str("outer"), Dict([(Str("inner"), Str("value"))]), "outer", "{\"inner\": \"value\"}");
    NestedText();
  }

  /** One more entry at the end of a dictionary. */
  lemma EntriesSnoc(es: seq<(Value, Value)>, e: (Value, Value), ps: seq<string>, p: string)
    requires DumpsEntries(es) == Some(ps) && DumpsMember(e) == Some(p)
    ensures DumpsEntries(es + [e]) == Some(ps + [p])
  {
    assert (es + [e])[..|es|] == es;
  }

  /** One `"key": value` member. */
  lemma Member(k: Value, v: Value, key: string, p: string)
    requires KeyText(k) == Some(key) && Dumps(v) == Some(p)
    ensures DumpsMember((k, v)) == Some(Quote(key) + ": " + p)
  {
  }

  /** `str(42)`. */
  lemma FortyTwo()
    ensures Dumps(Int(42)) == Some("42")
  {
    assert NatToString(4) == "4";
    assert NatToString(42) == NatToString(4) + [DigitChar(2)];
    assert [DigitChar(2)] == "2";
    assert "4" + "2" == "42";
    assert IntToString(42) == "42";
  }

  /** The members of the two-entry test dictionary, one text each. */
  lemma DictEntries()
    ensures DumpsEntries([(Str("key1"), Str("value1")), (Str("key2"), Int(42))]) ==
      Some(["\"key1\": \"value1\"", "\"key2\": 42"])
  {
    Word("key1");
    Word("value1");
    Word("key2");
    FortyTwo();
    var m1, m2 := "\"key1\": \"value1\"", "\"key2\": 42";
    Member(Str("key1"), Str("value1"), "key1", "\"" + "value1" + "\"");
    assert "\"" + "key1" + "\"" + ": " + ("\"" + "value1" + "\"") == m1;
    Member(Str("key2"), Int(42), "key2", "42");
    assert "\"" + "key2" + "\"" + ": " + "42" == m2;
    EntriesSnoc([], (Str("key1"), Str("value1")), [], m1);
    assert [] + [(Str("key1"), Str("value1"))] == [(Str("key1"), Str("value1"))] && [] + [m1] == [m1];
    EntriesSnoc([(Str("key1"), Str("value1"))], (Str("key2"), Int(42)), [m1], m2);
    assert [(Str("key1"), Str("value1"))] + [(Str("key2"), Int(42))] == [(Str("key1"), Str("value1")), (Str("key2"), Int(42))];
    assert [m1] + [m2] == [m1, m2];
  }

  /** Two members join with `, ` between them. */
  lemma DictJoin()
    ensures Join(", ", ["\"key1\": \"value1\"", "\"key2\": 42"]) == "\"key1\": \"value1\", \"key2\": 42"
  {
    var ps := ["\"key1\": \"value1\"", "\"key2\": 42"];
    assert ps[..1] == ["\"key1\": \"value1\""];
  }

  /** `json.dumps({"key1": "value1", "key2": 42})`: members in insertion
      order, separated by `, `. */
  lemma DictExample()
    ensures Dumps(Dict([(Str("key1"), Str("value1")), (Str("key2"), Int(42))])) ==
      Some("{\"key1\": \"value1\", \"key2\": 42}")
  {
    DictEntries();
    DictJoin();
    DictText();
  }

  lemma DictText()
    ensures "{" + "\"key1\": \"value1\", \"key2\": 42" + "}" == "{\"key1\": \"value1\", \"key2\": 42}"
  {
  }

  /** `json.dumps([])` and `json.dumps({})`. */
  lemma EmptyExamples()
    ensures Dumps(List([])) == Some("[]") && Dumps(Dict([])) == Some("{}")
  {
    assert Join(", ", []) == "";
    assert Bracket("[", Some([]), "]") == Some("[" + Join(", ", []) + "]");
    assert Bracket("{", Some([]), "}") == Some("{" + Join(", ", []) + "}");
    assert "[" + "" + "]" == "[]" && "{" + "" + "}" == "{}";
  }

  /** A set, and a list holding one, have no JSON form. */
  lemma SetExamples()
    ensures Dumps(Set([Int(1)])) == None
    ensures Dumps(List([Int(1), Set([])])) == None
  {
    DumpsDefined(List([Int(1), Set([])]));
    assert !Serialisable(List([Int(1), Set([])]).items[1]);
  }
}

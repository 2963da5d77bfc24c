/** Two small documents worked through the converter: a flat form with a
    plain and a required field, and a form whose fields are split between
    the top level and a repeat group. */
module Scenarios {
  import opened FormTree
  import opened Strings
  import opened Convert

  const FieldA := Element("text", map["name" := "a", "description" := "Name"], [])
  const FieldB := Element("int", map["name" := "b", "description" := "Age", "flags" := "required"], [])
  /** `<form><text name="a" description="Name"/><int name="b" description="Age" flags="required"/></form>` */
  const FlatForm := Element("form", map[], [FieldA, FieldB])

  /** `<entity id="a" name="a" label="Name" type="string" ></entity>` and a newline,
      written in the pieces the template is filled in from. */
  const FragmentA := "<entity id=\"" + "a" + "\" name=\"" + "a" + "\" label=\"" + "Name"
    + "\" type=\"" + "string" + "\" " + ">" + ("</entity>" + "\n")
  /** `<entity id="b" name="b" label="Age" type="integer" desired="true"></entity>`
      and a newline, written in the pieces the template is filled in from. */
  const FragmentB := "<entity id=\"" + "b" + "\" name=\"" + "b" + "\" label=\"" + "Age"
    + "\" type=\"" + "integer" + "\" " + "desired=\"true\"" + ">" + ("</entity>" + "\n")

  /** The flat form's fields are visited as `a` (text), then `b` (int). */
  lemma FlatFormFound()
    ensures Found(FlatForm) == [Candidate(TextField, FieldA), Candidate(IntField, FieldB)]
  {
    FlatFormSearches();
    assert Tagged([FieldA], TextField) == [Candidate(TextField, FieldA)];
    assert Tagged([FieldB], IntField) == [Candidate(IntField, FieldB)];
  }

  lemma FlatFormSearches()
    ensures FindAll(FlatForm, "text") == [FieldA]
    ensures FindAll(FlatForm, "int") == [FieldB]
    ensures FindAll(FlatForm, "date") == [] && FindAll(FlatForm, "choice") == []
    ensures FindAll(FlatForm, "repeat") == []
  {
    FlatFormDescendants();
    TagFilterPair("text");
    TagFilterPair("int");
    TagFilterPair("date");
    TagFilterPair("choice");
    TagFilterPair("repeat");
  }

  lemma FlatFormDescendants()
    ensures Descendants(FlatForm) == [FieldA, FieldB]
  {
    var kids := FlatForm.children;
    assert kids[1..] == [FieldB] && [FieldB][1..] == [];
    assert Walk([FieldB]) == [FieldB];
    assert Walk(kids) == [FieldA] + Walk([]) + Walk([FieldB]);
  }

  lemma TagFilterPair(tag: string)
    ensures TagFilter([FieldA, FieldB], tag)
         == (if tag == "text" then [FieldA] else if tag == "int" then [FieldB] else [])
  {
    var s := [FieldA, FieldB];
    assert s[1..] == [FieldB] && [FieldB][1..] == [];
  }

  /** A field without `bool` children is its opening tag and the closing tag. */
  lemma NoOptions(e: Element, t: string)
    requires ChildrenTagged(e, "bool") == []
    ensures Fragment(e, t) == Ok(Entry(Attr(e, "name"), Opening(GetValues(e, t)) + ("</entity>" + "\n")))
  {
    assert Traverse([], OptionLine) == Ok([]);
    assert OptionsBlock([]) == "";
    assert Opening(GetValues(e, t)) + "" == Opening(GetValues(e, t));
  }

  lemma FragmentOfA()
    ensures Fragment(FieldA, "string") == Ok(Entry(Some("a"), FragmentA))
  {
    assert ChildrenTagged(FieldA, "bool") == [];
    assert !Required(FieldA);
    var v := GetValues(FieldA, "string");
    assert v == Values(Some("a"), Some("a"), "string", Some("Name"), "");
    assert Opening(v) == "<entity id=\"" + "a" + "\" name=\"" + "a" + "\" label=\"" + "Name"
      + "\" type=\"" + "string" + "\" " + ">";
    NoOptions(FieldA, "string");
  }

  lemma FragmentOfB()
    ensures Fragment(FieldB, "integer") == Ok(Entry(Some("b"), FragmentB))
  {
    assert ChildrenTagged(FieldB, "bool") == [];
    assert Required(FieldB);
    var v := GetValues(FieldB, "integer");
    assert v == Values(Some("b"), Some("b"), "integer", Some("Age"), DesiredTrue);
    assert Opening(v) == "<entity id=\"" + "b" + "\" name=\"" + "b" + "\" label=\"" + "Age"
      + "\" type=\"" + "integer" + "\" " + "desired=\"true\"" + ">";
    NoOptions(FieldB, "integer");
  }

  /** Without a group restriction the flat form yields the fragment of `a`
      as a `string` field without the desired marker, then that of `b` as an
      `integer` field with it. */
  lemma FlatFormFields()
    ensures Fields(FlatForm) == Ok([Entry(Some("a"), FragmentA), Entry(Some("b"), FragmentB)])
  {
    FlatFormFound();
    FragmentOfA();
    FragmentOfB();
    TraversePair(Candidate(TextField, FieldA), Candidate(IntField, FieldB), ConvertCandidate);
  }

  lemma TraversePair<A, B>(x: A, y: A, f: A -> Result<B>)
    requires f(x).Ok? && f(y).Ok?
    ensures Traverse([x, y], f) == Ok([f(x).value, f(y).value])
  {
    var r := Traverse([x, y], f);
    assert [x, y][0] == x && [x, y][1] == y;
    assert r.Ok?;
    assert r.value[0] == f(x).value && r.value[1] == f(y).value;
    assert r.value == [f(x).value, f(y).value];
  }

  const FieldX := Element("text", map["name" := "x", "description" := "Title"], [])
  const FieldY := Element("int", map["name" := "y", "description" := "Count"], [])
  const GroupG := Element("repeat", map["name" := "g"], [FieldY])
  /** A top-level `text` field `x` and a repeat group `g` holding an `int` field `y`. */
  const GroupForm := Element("form", map[], [FieldX, GroupG])

  /** `<entity id="y" name="y" label="Count" type="integer" ></entity>` and a newline. */
  const FragmentY := "<entity id=\"" + "y" + "\" name=\"" + "y" + "\" label=\"" + "Count"
    + "\" type=\"" + "integer" + "\" " + ">" + ("</entity>" + "\n")

  lemma GroupFormRepeats()
    ensures FindAll(GroupForm, "repeat") == [GroupG]
  {
    var kids := GroupForm.children;
    assert kids[1..] == [GroupG] && [GroupG][1..] == [] && [FieldY][1..] == [];
    assert Walk([FieldY]) == [FieldY];
    assert Walk([GroupG]) == [GroupG, FieldY];
    assert Walk(kids) == [FieldX] + Walk([]) + [GroupG, FieldY];
    var d := [FieldX, GroupG, FieldY];
    assert Descendants(GroupForm) == d;
    assert d[1..] == [GroupG, FieldY] && d[1..][1..] == [FieldY];
    assert TagFilter([FieldY], "repeat") == [];
    assert TagFilter([GroupG, FieldY], "repeat") == [GroupG];
  }

  lemma GroupFound()
    ensures Found(GroupG) == [Candidate(IntField, FieldY)]
  {
    assert [FieldY][1..] == [] && GroupG.children == [FieldY];
    assert Walk([FieldY]) == [FieldY] + Walk([]) + Walk([]);
    assert Descendants(GroupG) == [FieldY];
    assert FindAll(GroupG, "text") == [] && FindAll(GroupG, "int") == [FieldY];
    assert FindAll(GroupG, "date") == [] && FindAll(GroupG, "choice") == [];
    assert Tagged([FieldY], IntField) == [Candidate(IntField, FieldY)];
  }

  /** Restricted to group `g`, the conversion sees only the group's field `y`. */
  lemma GroupFields()
    ensures Fields(GroupG) == Ok([Entry(Some("y"), FragmentY)])
  {
    GroupFound();
    assert ChildrenTagged(FieldY, "bool") == [];
    var v := GetValues(FieldY, "integer");
    assert v == Values(Some("y"), Some("y"), "integer", Some("Count"), "");
    assert Opening(v) == "<entity id=\"" + "y" + "\" name=\"" + "y" + "\" label=\"" + "Count"
      + "\" type=\"" + "integer" + "\" " + ">";
    NoOptions(FieldY, "integer");
    var c := Candidate(IntField, FieldY);
    assert ConvertCandidate(c) == Ok(Entry(Some("y"), FragmentY));
    TraverseOne(c, ConvertCandidate);
  }

  lemma TraverseOne<A, B>(x: A, f: A -> Result<B>)
    requires f(x).Ok?
    ensures Traverse([x], f) == Ok([f(x).value])
  {
    var r := Traverse([x], f);
    assert [x][0] == x;
    assert r.Ok? && r.value[0] == f(x).value;
    assert r.value == [f(x).value];
  }

  /** Running without a group restriction over the flat form returns the
      fragment of `a`, then that of `b`. */
  method FlatRun() returns (r: Result<seq<string>>)
    ensures r == Ok([FragmentA, FragmentB])
  {
    FlatFormSearches();
    FlatFormTexts();
    r := ParseInfile(FlatForm, None);
  }

  lemma FlatFormTexts()
    ensures TextsOf(Fields(FlatForm)) == Ok([FragmentA, FragmentB])
  {
    FlatFormFields();
    assert Texts([Entry(Some("a"), FragmentA), Entry(Some("b"), FragmentB)]) == [FragmentA, FragmentB];
  }

  /** Running with the group `g` asked for over the group form returns only the
      fragment of `y`. */
  method GroupRun() returns (r: Result<seq<string>>)
    ensures r == Ok([FragmentY])
  {
    GroupFormRepeats();
    GroupTexts();
    assert Selects(GroupG, Some("g"));
    r := ParseInfile(GroupForm, Some("g"));
  }

  lemma GroupTexts()
    ensures TextsOf(Fields(GroupG)) == Ok([FragmentY])
  {
    GroupFields();
    assert Texts([Entry(Some("y"), FragmentY)]) == [FragmentY];
  }

  /** Naming a group that is not the document's first repeat group, or naming
      none at all while the document has one, ends in the same error. */
  method UnselectedRuns() returns (other: Result<seq<string>>, unnamed: Result<seq<string>>)
    ensures other == Fail && unnamed == Fail
  {
    GroupFormRepeats();
    other := ParseInfile(GroupForm, Some("h"));
    unnamed := ParseInfile(GroupForm, None);
  }
}

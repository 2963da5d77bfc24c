/** The formed-to-formbar converter: it maps each recognised field element of
    a parsed formed document to a formbar `<entity>` fragment, optionally
    restricted to one named repeat group. */
module Convert {
  import opened FormTree
  import opened Strings

  /** The outcome of a step that Python may abort with an exception. Every
      exception the converter can raise (a KeyError for a missing attribute,
      the TypeError of `ignored_elements.extend()`) is the one outcome `Fail`. */
  datatype Result<T> = Ok(value: T) | Fail

  /** The keys `get_values` fills, which the entity template uses. */
  datatype Values = Values(name: Option<string>, id: Option<string>, typeName: string,
                           labelText: Option<string>, desired: string)

  /** One output element descriptor: the field's `name` attribute and its
      serialised text. */
  datatype Entry = Entry(name: Option<string>, text: string)

  /** The four recognised field tags, in the order the collector visits them. */
  datatype FieldKind = TextField | IntField | DateField | ChoiceField

  /** A field element the collector found, with the kind it is converted as. */
  datatype Candidate = Candidate(kind: FieldKind, element: Element)

  const RequiredPrefix := "required"
  const DesiredTrue := "desired=\"true\""
  const Indent4 := "    "
  const Indent8 := "        "
  const OptionOpen := Indent8 + "<option value=\""
  const OptionMid := "\">"
  const OptionClose := "</option>"
  const EntityClose := "</entity>"
  const OptionsOpen := Indent4 + "<options>"
  const OptionsClose := Indent4 + "</options>"

  /** How `str.format` renders a value fetched with `attrib.get`: an absent
      attribute is Python's `None`. */
  function Render(a: Option<string>): string
  {
    match a
    case None => "None"
    case Some(s) => s
  }

  /** Whether the field's `flags` attribute marks it as required. */
  predicate Required(e: Element)
  {
    "flags" in e.attrib && RequiredPrefix <= e.attrib["flags"]
  }

  /** `get_values`: the output record of one field element. */
  function GetValues(e: Element, t: string): (v: Values)
    ensures v.id == v.name == Attr(e, "name")
    ensures v.labelText == Attr(e, "description") && v.typeName == t
    ensures v.desired == DesiredTrue <==> Required(e)
    ensures v.desired == DesiredTrue || v.desired == ""
  {
    var flags := Attr(e, "flags");
    var desired := if flags.Some? && flags.value != "" && RequiredPrefix <= flags.value then DesiredTrue else "";
    Values(Attr(e, "name"), Attr(e, "name"), t, Attr(e, "description"), desired)
  }

  /** `OENTITY.format(**values)`: the opening entity tag. */
  function Opening(v: Values): string
  {
    "<entity id=\"" + Render(v.id) + "\" name=\"" + Render(v.name) + "\" label=\"" + Render(v.labelText)
    + "\" type=\"" + v.typeName + "\" " + v.desired + ">"
  }

  /** The `value` written for a `bool` child: the sentinel `-1` becomes empty. */
  function OptionValue(raw: string): string
  {
    if raw == "-1" then "" else raw
  }

  /** One `<option>` line for a `bool` child; a missing `value` or
      `description` attribute is a KeyError. */
  function OptionLine(c: Element): (r: Result<string>)
    ensures r.Ok? <==> "value" in c.attrib && "description" in c.attrib
  {
    if "value" !in c.attrib || "description" !in c.attrib then Fail
    else Ok(OptionOpen + OptionValue(c.attrib["value"]) + OptionMid + c.attrib["description"] + OptionClose)
  }

  /** Applies a step that may fail to each item in order, stopping at the
      first failure, as the converter's loops do. */
  function Traverse<A, B>(xs: seq<A>, f: A -> Result<B>): (r: Result<seq<B>>)
    ensures r.Ok? <==> forall i :: 0 <= i < |xs| ==> f(xs[i]).Ok?
    ensures r.Ok? ==> |r.value| == |xs| && forall i :: 0 <= i < |xs| ==> r.value[i] == f(xs[i]).value
  {
    if xs == [] then Ok([])
    else
      match (Traverse(xs[..|xs| - 1], f), f(xs[|xs| - 1]))
      case (Ok(ys), Ok(y)) => Ok(ys + [y])
      case _ => Fail
  }

  /** Traversing one more item extends the result by that item's outcome. */
  lemma TraverseSnoc<A, B>(xs: seq<A>, x: A, f: A -> Result<B>)
    ensures Traverse(xs + [x], f)
         == if Traverse(xs, f).Ok? && f(x).Ok? then Ok(Traverse(xs, f).value + [f(x).value]) else Fail
  {
    assert (xs + [x])[..|xs|] == xs;
  }

  lemma AppendAssoc<T>(a: seq<T>, b: seq<T>, c: seq<T>)
    ensures a + (b + c) == (a + b) + c
  {
  }

  /** Two results of a sequence joined one after the other. */
  function Combine<B>(x: Result<seq<B>>, y: Result<seq<B>>): Result<seq<B>>
  {
    if x.Ok? && y.Ok? then Ok(x.value + y.value) else Fail
  }

  /** Traversing a concatenation is traversing each part in turn. */
  lemma {:induction false} TraverseAppend<A, B>(a: seq<A>, b: seq<A>, f: A -> Result<B>)
    ensures Traverse(a + b, f) == Combine(Traverse(a, f), Traverse(b, f))
  {
    if b == [] {
      assert a + b == a;
      if Traverse(a, f).Ok? {
        assert Traverse(a, f).value + [] == Traverse(a, f).value;
      }
    } else {
      var front := b[..|b| - 1];
      var x := b[|b| - 1];
      assert b == front + [x];
      assert a + b == (a + front) + [x];
      TraverseAppend(a, front, f);
      TraverseSnoc(a + front, x, f);
      TraverseSnoc(front, x, f);
      if Traverse(a, f).Ok? && Traverse(front, f).Ok? && f(x).Ok? {
        AppendAssoc(Traverse(a, f).value, Traverse(front, f).value, [f(x).value]);
      }
    }
  }

  /** The `<options>` block between the opening and closing entity tags;
      nothing at all when the field has no `bool` children. */
  function OptionsBlock(lines: seq<string>): string
  {
    if lines == [] then ""
    else "\n" + OptionsOpen + "\n" + Join(lines, "\n") + "\n" + OptionsClose + "\n"
  }

  /** The fragment `convert_element` returns for field `e` with output type `t`. */
  function Fragment(e: Element, t: string): (r: Result<Entry>)
    ensures r.Ok? <==> forall c :: c in ChildrenTagged(e, "bool") ==> "value" in c.attrib && "description" in c.attrib
    ensures r.Ok? ==> r.value.name == Attr(e, "name")
  {
    var bools := ChildrenTagged(e, "bool");
    var lines := Traverse(bools, OptionLine);
    assert lines.Fail? ==> exists i :: 0 <= i < |bools| && OptionLine(bools[i]).Fail?;
    match lines
    case Fail => Fail
    case Ok(ls) => Ok(Entry(Attr(e, "name"), Opening(GetValues(e, t)) + OptionsBlock(ls) + (EntityClose + "\n")))
  }

  /** The loop of `convert_element` over the direct `bool` children: one
      option line per child, in child order. */
  method OptionLines(e: Element) returns (r: Result<seq<string>>)
    ensures r == Traverse(ChildrenTagged(e, "bool"), OptionLine)
  {
    var options: seq<string> := [];
    var bools := ChildrenTagged(e, "bool");
    for i := 0 to |bools|
      invariant Traverse(bools[..i], OptionLine) == Ok(options)
    {
      var c := bools[i];
      if "value" !in c.attrib {
        assert OptionLine(bools[i]).Fail?;
        return Fail;
      }
      var value := c.attrib["value"];
      if value == "-1" {
        value := "";
      }
      if "description" !in c.attrib {
        assert OptionLine(bools[i]).Fail?;
        return Fail;
      }
      var line := OptionOpen + value + OptionMid + c.attrib["description"] + OptionClose;
      assert OptionLine(c) == Ok(line);
      assert bools[..i + 1][..i] == bools[..i];
      options := options + [line];
    }
    assert bools[..|bools|] == bools;
    r := Ok(options);
  }

  /** `convert_element`: the opening tag, the options block when there are
      options, the closing tag. */
  method ConvertElement(e: Element, t: string) returns (r: Result<Entry>)
    ensures r == Fragment(e, t)
  {
    var values := GetValues(e, t);
    var x := [Opening(values)];
    var lines := OptionLines(e);
    if lines.Fail? {
      return Fail;
    }
    var options := lines.value;
    if options != [] {
      var y := ["\n" + OptionsOpen] + options + [OptionsClose + "\n"];
      EnclosedBlock(OptionsOpen, options, OptionsClose);
      x := x + [Join(y, "\n")];
    }
    x := x + [EntityClose + "\n"];
    ConcatParts(Opening(values), OptionsBlock(options), EntityClose + "\n", x);
    r := Ok(Entry(values.name, Concat(x)));
  }

  /** `convert_text`, `convert_int`, `convert_date`, `convert_choice`: the
      output type of each field kind. A choice is an integer; there is no
      output type of its own for it. */
  function TypeName(k: FieldKind): (r: string)
    ensures r == "string" || r == "integer" || r == "date"
    ensures r == "string" <==> k == TextField
    ensures r == "date" <==> k == DateField
  {
    match k
    case TextField => "string"
    case IntField => "integer"
    case DateField => "date"
    case ChoiceField => "integer"
  }

  /** The source tag of each field kind. */
  function Tag(k: FieldKind): string
  {
    match k
    case TextField => "text"
    case IntField => "int"
    case DateField => "date"
    case ChoiceField => "choice"
  }

  function ConvertCandidate(c: Candidate): Result<Entry>
  {
    Fragment(c.element, TypeName(c.kind))
  }

  /** The elements found for one tag, each paired with its kind. */
  function Tagged(es: seq<Element>, k: FieldKind): (r: seq<Candidate>)
    ensures |r| == |es|
    ensures forall i :: 0 <= i < |es| ==> r[i] == Candidate(k, es[i])
  {
    if es == [] then [] else Tagged(es[..|es| - 1], k) + [Candidate(k, es[|es| - 1])]
  }

  /** Every field `find_elements` visits, in visiting order: all `text`
      descendants, then all `int`, then all `date`, then all `choice`. */
  function Found(root: Element): (r: seq<Candidate>)
    ensures |r| == |FindAll(root, "text")| + |FindAll(root, "int")| + |FindAll(root, "date")| + |FindAll(root, "choice")|
  {
    Tagged(FindAll(root, Tag(TextField)), TextField) + Tagged(FindAll(root, Tag(IntField)), IntField)
    + Tagged(FindAll(root, Tag(DateField)), DateField) + Tagged(FindAll(root, Tag(ChoiceField)), ChoiceField)
  }

  /** What `find_elements(root)` returns. */
  function Fields(root: Element): Result<seq<Entry>>
  {
    Traverse(Found(root), ConvertCandidate)
  }

  /** One of the four loops of `find_elements`: converts every element found
      for one tag and appends the fragments to those collected so far. */
  method Collect(elements: seq<Entry>, found: seq<Element>, kind: FieldKind) returns (r: Result<seq<Entry>>)
    ensures r == Combine(Ok(elements), Traverse(Tagged(found, kind), ConvertCandidate))
  {
    var acc := elements;
    ghost var candidates := Tagged(found, kind);
    ghost var converted: seq<Entry> := [];
    assert candidates[..0] == [];
    for i := 0 to |found|
      invariant acc == elements + converted
      invariant Traverse(candidates[..i], ConvertCandidate) == Ok(converted)
    {
      var entry := ConvertElement(found[i], TypeName(kind));
      assert entry == ConvertCandidate(candidates[i]);
      if entry.Fail? {
        TraverseFailsAt(candidates, i, ConvertCandidate);
        return Fail;
      }
      TraverseExtend(candidates, i, ConvertCandidate, converted);
      AppendAssoc(elements, converted, [entry.value]);
      acc := acc + [entry.value];
      converted := converted + [entry.value];
    }
    assert candidates[..|found|] == candidates;
    r := Ok(acc);
  }

  /** A traversal fails when any one item fails. */
  lemma TraverseFailsAt<A, B>(xs: seq<A>, i: nat, f: A -> Result<B>)
    requires i < |xs| && f(xs[i]).Fail?
    ensures Traverse(xs, f).Fail?
  {
  }

  /** One more successful item extends the traversed prefix by its value. */
  lemma TraverseExtend<A, B>(xs: seq<A>, i: nat, f: A -> Result<B>, done: seq<B>)
    requires i < |xs| && f(xs[i]).Ok?
    requires Traverse(xs[..i], f) == Ok(done)
    ensures Traverse(xs[..i + 1], f) == Ok(done + [f(xs[i]).value])
  {
    assert xs[..i + 1] == xs[..i] + [xs[i]];
    TraverseSnoc(xs[..i], xs[i], f);
  }

  /** `find_elements`: the fragments of every recognised field below `root`. */
  method FindElements(root: Element) returns (r: Result<seq<Entry>>)
    ensures r == Fields(root)
  {
    FieldsInOrder(root);
    ghost var texts, ints, dates := KindFields(root, TextField), KindFields(root, IntField), KindFields(root, DateField);
    var elements: seq<Entry> := [];
    var step := Collect(elements, FindAll(root, Tag(TextField)), TextField);
    if step.Fail? { return Fail; }
    assert [] + texts.value == texts.value;
    elements := step.value;
    step := Collect(elements, FindAll(root, Tag(IntField)), IntField);
    if step.Fail? { return Fail; }
    assert step == Combine(texts, ints);
    elements := step.value;
    step := Collect(elements, FindAll(root, Tag(DateField)), DateField);
    if step.Fail? { return Fail; }
    assert step == Combine(Combine(texts, ints), dates);
    elements := step.value;
    step := Collect(elements, FindAll(root, Tag(ChoiceField)), ChoiceField);
    if step.Fail? { return Fail; }
    r := Ok(step.value);
  }

  /** The fragments of one kind's fields. */
  function KindFields(root: Element, k: FieldKind): Result<seq<Entry>>
  {
    Traverse(Tagged(FindAll(root, Tag(k)), k), ConvertCandidate)
  }

  /** `find_elements` converts the four kinds one after the other. */
  lemma FieldsInOrder(root: Element)
    ensures Fields(root) == Combine(Combine(Combine(KindFields(root, TextField), KindFields(root, IntField)),
                                            KindFields(root, DateField)), KindFields(root, ChoiceField))
  {
    var texts := Tagged(FindAll(root, Tag(TextField)), TextField);
    var ints := Tagged(FindAll(root, Tag(IntField)), IntField);
    var dates := Tagged(FindAll(root, Tag(DateField)), DateField);
    var choices := Tagged(FindAll(root, Tag(ChoiceField)), ChoiceField);
    TraverseAppend(texts + ints + dates, choices, ConvertCandidate);
    TraverseAppend(texts + ints, dates, ConvertCandidate);
    TraverseAppend(texts, ints, ConvertCandidate);
  }

  /** `[x[1] for x in entries]`: the serialised texts. */
  function Texts(entries: seq<Entry>): seq<string>
  {
    seq(|entries|, i requires 0 <= i < |entries| => entries[i].text)
  }

  function TextsOf(r: Result<seq<Entry>>): Result<seq<string>>
  {
    match r
    case Ok(entries) => Ok(Texts(entries))
    case Fail => Fail
  }

  /** The texts of the entries whose name is not in `ignored`, in order. */
  function Kept(entries: seq<Entry>, ignored: seq<Option<string>>): (r: seq<string>)
    ensures |r| <= |entries|
    ensures forall i :: 0 <= i < |entries| && entries[i].name !in ignored ==> entries[i].text in r
    ensures ignored == [] ==> r == Texts(entries)
  {
    if entries == [] then []
    else
      var last := entries[|entries| - 1];
      var front := entries[..|entries| - 1];
      var r := Kept(front, ignored) + (if last.name in ignored then [] else [last.text]);
      assert forall i :: 0 <= i < |front| ==> front[i] == entries[i];
      r
  }

  /** The name filter of `parse_infile`: drops every fragment whose name
      was ignored and keeps the text of the others. */
  method DropIgnored(entries: seq<Entry>, ignored: seq<Option<string>>) returns (kept: seq<string>)
    ensures kept == Kept(entries, ignored)
  {
    kept := [];
    for i := 0 to |entries|
      invariant kept == Kept(entries[..i], ignored)
    {
      assert entries[..i + 1][..i] == entries[..i];
      if entries[i].name in ignored {
        continue;
      }
      kept := kept + [entries[i].text];
    }
    assert entries[..|entries|] == entries;
  }

  /** Whether the repeat group `g` is the one asked for: `rg` must be
      truthy (given and non-empty) and equal to the group's `name`. */
  predicate Selects(g: Element, rg: Option<string>)
  {
    rg.Some? && rg.value != "" && "name" in g.attrib && g.attrib["name"] == rg.value
  }

  /** `parse_infile` on an already parsed document. The loop over the repeat
      groups returns on its first group when that group is the one asked for
      and otherwise reaches `ignored_elements.extend()`, which raises. */
  method ParseInfile(root: Element, rg: Option<string>) returns (r: Result<seq<string>>)
    ensures FindAll(root, "repeat") == [] ==> r == TextsOf(Fields(root))
    ensures FindAll(root, "repeat") != [] && Selects(FindAll(root, "repeat")[0], rg) ==>
      r == TextsOf(Fields(FindAll(root, "repeat")[0]))
    ensures FindAll(root, "repeat") != [] && !Selects(FindAll(root, "repeat")[0], rg) ==> r == Fail
  {
    var ignoredElements: seq<Entry> := [];
    var repeats := FindAll(root, "repeat");
    for i := 0 to |repeats|
      invariant i == 0
    {
      var e := repeats[i];
      if rg.Some? && rg.value != "" {
        if "name" !in e.attrib {
          return Fail;
        }
        if e.attrib["name"] == rg.value {
          var found := FindElements(e);
          return TextsOf(found);
        }
      }
      return Fail;
    }
    var allElements := FindElements(root);
    if allElements.Fail? {
      return Fail;
    }
    var ignoredNames := seq(|ignoredElements|, k requires 0 <= k < |ignoredElements| => ignoredElements[k].name);
    var elements := DropIgnored(allElements.value, ignoredNames);
    r := Ok(elements);
  }
}

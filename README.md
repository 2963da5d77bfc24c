# formed2formbar converter, modelled in Dafny

`convert.py` turns a form definition written in the *formed* XML dialect into
*formbar* entity fragments. Every field element of the input (`text`, `int`,
`date`, `choice`) becomes one `<entity id=… name=… label=… type=… desired>`
opening tag. Its `bool` children, if any, become an indented `<options>` block.
A closing `</entity>` and a newline end the fragment. `parse_infile` either
converts the whole document or, when a repeat group is named, only that group.

The project models that core on an already parsed document:

- `form_tree.dfy` (module `FormTree`): the parsed element tree, `attrib.get`,
  and ElementTree's `findall(".//tag")` (pre-order, the start element excluded)
  and `findall("tag")` (direct children).
- `strings.dfy` (module `Strings`): `sep.join`, `"".join` and `split("\n")`,
  with the lemmas that relate them.
- `convert.dfy` (module `Convert`): the field record, the entity template,
  `convert_element`, the four type mappings, `find_elements` and
  `parse_infile`.
  - The loops over elements (`convert.py:31`, `64-71`, `83` and `92`) are
    methods with loops and loop invariants. Copying the option lines into
    `y` (`convert.py:40-41`) is a sequence concatenation.
  - `OptionLines`, `ConvertElement`, `Collect`, `FindElements` and
    `DropIgnored` are each proved equal to a function that specifies them.
  - `ParseInfile` states its result case by case: no repeat group, the
    first repeat group selected, or not selected.
- `properties.dfy` (module `Properties`): what a fragment looks like line by
  line, reading the opening tag and each option back from their text, and
  which elements `find_elements` visits.
- `scenarios.dfy` (module `Scenarios`): two small documents worked through
  the converter.

Modelling choices:

- A missing attribute read with `attrib.get` is Python's `None`. `str.format`
  renders it as the text `None`.
- Every exception the source can raise becomes the single outcome `Fail`:
  - `KeyError` on a `bool` child without `value` or `description`;
  - `KeyError` on a repeat group without `name` when a group was asked for;
  - `TypeError` from `ignored_elements.extend()` with no argument.
- The group name follows Python truthiness: an empty name counts as no name.

Where `convert.py` behaves differently from what its names suggest, the model
follows the code:

- A field without `name` does not fail. Its `id` and `name` are rendered as
  `None`.
- A named group is looked for only among the document's first repeat group.
  The loop in `parse_infile` ends on its first repeat group, either by
  returning or by raising at `convert.py:87`.
  - With no group named, a document that has any repeat group fails.
  - With a group named that is not the first repeat group, the run also fails.
  - Only a document without repeat groups is converted whole.
  - `Scenarios.UnselectedRuns` shows both failing cases.
- The name filter of `parse_infile` is modelled for any list of ignored names.
  The list `parse_infile` builds is always empty, so the filter keeps every
  fragment.

## Model

| member | source | states |
|---|---|---|
| Convert.GetValues | convert.py:14-24 | `id` and `name` are both the field's `name` attribute, `label` is its `description`, `type` is the requested type; `desired` is `desired="true"` exactly when `flags` is present and starts with `required`, otherwise empty |
| Properties.OpeningReadBack | convert.py:11-12 | the opening tag filled from a field carries its `name` (or `None`) as both `id` and `name`, its `description` (or `None`) as `label` and the output type as `type`, all read back from the tag text when none holds a quote; after the quote closing `type` come a space, `desired="true"` exactly for a required field and nothing otherwise, and `>` |
| Convert.OptionLine | convert.py:31-35 | converting a `bool` child succeeds exactly when it has both `value` and `description` |
| Properties.ReadOptionLine | convert.py:31-35 | an option line holds the child's `value` (with `-1` turned into the empty value) and its `description`, and both can be read back from the line when the value holds no quote |
| Convert.OptionLines | convert.py:31-35 | the loop over the direct `bool` children yields one option line per child in child order, or fails at the first child missing an attribute |
| Convert.Fragment | convert.py:26-47 | a fragment is produced exactly when every `bool` child has `value` and `description`, and it is returned under the field's `name` |
| Convert.ConvertElement | convert.py:26-47 | `convert_element` builds exactly the fragment `Fragment` describes, from its list of parts and the `"\n".join` of the options block |
| Strings.EnclosedBlock | convert.py:37-43 | joining the `<options>` line, the option lines and the `</options>` line with newlines yields a newline, `<options>`, the options one per line, `</options>` and a newline |
| Properties.FragmentLines | convert.py:30-46 | split into lines, a fragment without `bool` children is the opening tag followed directly by `</entity>`; with children it is the opening tag, `    <options>`, one line per option in order, `    </options>`, `</entity>`; in both cases the text ends with a newline |
| Convert.TypeName | convert.py:49-59 | text fields are `string`, date fields are `date`, and int and choice fields are both `integer`; there is no other output type |
| Convert.Collect | convert.py:64-71 | one loop of `find_elements` appends the fragments of the found elements, in order, to those collected before, or fails when one conversion fails |
| Convert.FieldsInOrder | convert.py:61-72 | the fields of a document are its text fields, then its int, date and choice fields, each kind converted in turn |
| Convert.FindElements | convert.py:61-72 | `find_elements` returns exactly the fragments of all recognised fields below the start element in that order |
| FormTree.TagFilterAppend | convert.py:64-71 | a tag search keeps the order and the repeats of the walk it filters: filtering a concatenation filters each part in turn, and one element is kept exactly when it has the tag |
| FormTree.DescendantsExcludeSelf | convert.py:64-71 | a search for `.//tag` never returns the element it starts from, even when that element has the tag |
| Properties.FoundSound | convert.py:61-72 | every element `find_elements` converts lies strictly below its start element and carries the tag of the kind it is converted as; their number is the sum of the four searches |
| Properties.FieldsEntries | convert.py:61-72 | the i-th fragment is the conversion of the i-th visited element with its kind's type, named by that element's `name` |
| Properties.GroupFieldsWithinDocument | convert.py:83-85 | every field converted for a repeat group is also a field of the whole document |
| Convert.Kept | convert.py:89-96 | the filter keeps at most all fragments and keeps every fragment whose name is not ignored; with no ignored names it keeps every text in order |
| Convert.DropIgnored | convert.py:91-96 | the filter loop computes exactly `Kept` |
| Convert.ParseInfile | convert.py:74-96 | without repeat groups, the texts of all fields of the document; when the first repeat group is the one named, the texts of that group's fields only; otherwise failure |
| Scenarios.FlatFormFields | convert.py:61-72 | for `<form><text name="a" description="Name"/><int name="b" description="Age" flags="required"/></form>` the fields are a `string` entity for `a` without a desired marker, then an `integer` entity for `b` with it |
| Scenarios.FlatRun | convert.py:74-96 | converting that form with no group named yields exactly those two fragments |
| Scenarios.GroupRun | convert.py:83-85 | for a form with a top-level text field `x` and a repeat group `g` holding an int field `y`, naming `g` yields only the fragment of `y` |
| Scenarios.UnselectedRuns | convert.py:83-87 | on that form, naming another group or naming no group both fail |

## Left out

- Parsing the XML text (`ET.fromstring` at `convert.py:80`) and reading the input file are outside the model. `parse_infile` takes the parsed element tree.
- `main` (`convert.py:99-131`) is not modelled: argument parsing, list mode, UTF-8 encoding, writing the output and printing are I/O. As written, `main` reads `args.infile`, an attribute the parser never defines, so it could not reach the converter anyway.
- Listing the repeat group names (`convert.py:115-119`) belongs to `main` and is left out with it.
- Python's exception kinds and tracebacks are not distinguished; every failure is one `Fail`.
- Python 2 byte strings and `unicode` are not told apart; all text is a sequence of characters.
- The evident purpose of `ignored_elements.extend()` at `convert.py:87` is not modelled. It may have been meant to exclude the fields of repeat groups from the whole-document result. The call as written always raises, and the intended argument cannot be told from the code.
- Properties.FragmentLines: states the line layout only when neither the type nor any attribute value of the field or its `bool` children contains a newline, because such a newline would split a line.
- Properties.OpeningReadBack: states the read-back only when the `name`, the `description` and the type hold no quote, because the template escapes nothing.
- Properties.ReadOptionLine: states the read-back only for values without a quote, because the source escapes nothing and a quote inside a value makes the line ambiguous.
- Convert.Kept: does not state that an entry with an ignored name is dropped, apart from what its length bound implies. `parse_infile` only ever passes an empty list of ignored names.

/** The untyped form state shared by the registration wizards
    (components/kitchen-registration.tsx, components/delivery-partner-registration.tsx):
    a record of named values that `updateField(field, value)` overwrites with a
    value of any type, one level of nesting reached through a dotted path, and
    a step counter moved by Previous and Next. */
module Forms {
  import opened Text

  /** A JavaScript value as the forms hold it. Numbers are integers (money in
      minor units); `Undefined` is what reading a missing field gives. */
  datatype Value =
    | Undefined
    | Str(s: string)
    | Num(n: int)
    | Flag(b: bool)
    | List(items: seq<string>)
    | Group(fields: map<string, Value>)

  type Form = map<string, Value>

  /** `form[key]`, with `undefined` for a missing key. */
  function Get(form: Form, key: string): (v: Value)
    ensures key !in form ==> v == Undefined
    ensures key in form ==> v == form[key]
  {
    if key in form then form[key] else Undefined
  }

  /** `v[key]`: a member of an object, `undefined` on anything else. */
  function Member(v: Value, key: string): (r: Value)
    ensures !v.Group? ==> r == Undefined
    ensures v.Group? ==> r == Get(v.fields, key)
  {
    if v.Group? then Get(v.fields, key) else Undefined
  }

  /** JavaScript truthiness: the empty string, 0, `false` and `undefined` are
      falsy; arrays and objects are truthy even when empty. */
  predicate Truthy(v: Value) {
    match v
    case Undefined => false
    case Str(s) => |s| > 0
    case Num(n) => n != 0
    case Flag(b) => b
    case List(_) => true
    case Group(_) => true
  }

  /** `v.length > 0`: strings and arrays have a length; anything else compares
      `undefined > 0`, which is false. */
  predicate NonEmpty(v: Value) {
    match v
    case Str(s) => |s| > 0
    case List(items) => |items| > 0
    case _ => false
  }

  /** `String(v)` as a template literal renders it. */
  function Render(v: Value): string {
    match v
    case Undefined => "undefined"
    case Str(s) => s
    case Num(n) => if n < 0 then "-" + NatToString(-n) else NatToString(n)
    case Flag(b) => if b then "true" else "false"
    case List(items) => Join(items, ",")
    case Group(_) => "[object Object]"
  }

  /** The array a list field holds; any other value gives no elements. */
  function Items(v: Value): (r: seq<string>)
    ensures v.List? ==> r == v.items
  {
    if v.List? then v.items else []
  }

  /** A field name with a dot addresses a member of a nested object. */
  predicate IsPath(field: string) {
    '.' in field
  }

  /** `const [parent, child] = field.split('.')`: the text before the first dot
      and the piece after it (anything after a second dot is ignored). */
  function Parent(field: string): (p: string)
    requires IsPath(field)
    ensures p <= field && '.' !in p
    ensures |p| < |field| && field[|p|] == '.'
  {
    SplitFirst(field, '.');
    Split(field, '.')[0]
  }

  function Child(field: string): (c: string)
    requires IsPath(field)
    ensures '.' !in c
    ensures Parent(field) + "." + c <= field
    ensures |Parent(field)| + 1 + |c| < |field| ==> field[|Parent(field)| + 1 + |c|] == '.'
  {
    SplitSecond(field, '.');
    Split(field, '.')[1]
  }

  /** The top-level field a name writes. */
  function Top(field: string): (t: string)
    ensures '.' !in t
  {
    if IsPath(field) then Parent(field) else field
  }

  /** A name built as `parent + "." + child` splits back into those parts. */
  lemma ParentChildOfPath(parent: string, child: string)
    requires '.' !in parent && '.' !in child
    ensures IsPath(parent + "." + child)
    ensures Parent(parent + "." + child) == parent && Child(parent + "." + child) == child
  {
    var field := parent + "." + child;
    assert field[|parent|] == '.';
    assert Join([parent, child], ".") == field;
    JoinSplit([parent, child], '.');
  }

  /** `updateField(field, value)` of the kitchen wizard: a dotted name replaces
      one member of the parent object and keeps its other members; a plain name
      replaces the field. A parent that is not an object spreads as `{}`. */
  function UpdateField(form: Form, field: string, value: Value): (r: Form)
    ensures r.Keys == form.Keys + {Top(field)}
    ensures forall k :: k in form && k != Top(field) ==> r[k] == form[k]
    ensures !IsPath(field) ==> r[field] == value
    ensures IsPath(field) ==>
      && r[Parent(field)].Group?
      && r[Parent(field)].fields.Keys == Siblings(form, Parent(field)).Keys + {Child(field)}
      && r[Parent(field)].fields[Child(field)] == value
      && (forall k :: k in Siblings(form, Parent(field)) && k != Child(field) ==>
            r[Parent(field)].fields[k] == Siblings(form, Parent(field))[k])
  {
    if IsPath(field) then
      var parent := Parent(field);
      form[parent := Group(Siblings(form, parent)[Child(field) := value])]
    else
      form[field := value]
  }

  /** The members `{...prev[parent]}` copies. */
  function Siblings(form: Form, parent: string): map<string, Value> {
    var v := Get(form, parent);
    if v.Group? then v.fields else map[]
  }

  /** Reading a field name back, through the parent object for a dotted name. */
  function Lookup(form: Form, field: string): Value {
    if IsPath(field) then Member(Get(form, Parent(field)), Child(field)) else Get(form, field)
  }

  /** What `updateField` writes is what a read of the same name returns. */
  lemma UpdateThenLookup(form: Form, field: string, value: Value)
    ensures Lookup(UpdateField(form, field, value), field) == value
  {
  }

  /** A write leaves every name under another top-level field alone, and a
      dotted write leaves the other members of its parent object alone. */
  lemma UpdateKeepsOthers(form: Form, field: string, value: Value, other: string)
    requires Top(other) != Top(field) || (IsPath(field) && IsPath(other) && Get(form, Parent(field)).Group?
                                          && Parent(other) == Parent(field) && Child(other) != Child(field))
    ensures Lookup(UpdateField(form, field, value), other) == Lookup(form, other)
  {
    var r := UpdateField(form, field, value);
    if Top(other) != Top(field) {
      assert Get(r, Top(other)) == Get(form, Top(other));
    }
  }

  /** The kitchen wizard's writes with plain names are the partner wizard's
      `updateField`, which never splits. */
  function SetField(form: Form, field: string, value: Value): (r: Form)
    ensures r.Keys == form.Keys + {field}
    ensures r[field] == value
    ensures forall k :: k in form && k != field ==> r[k] == form[k]
  {
    form[field := value]
  }

  lemma PlainUpdateIsSet(form: Form, field: string, value: Value)
    requires !IsPath(field)
    ensures UpdateField(form, field, value) == SetField(form, field, value)
  {
  }

  /** The Previous button: `Math.max(1, step - 1)`. */
  function Previous(step: int): (r: int)
    ensures r >= 1
    ensures step <= 1 ==> r == 1
    ensures step > 1 ==> r == step - 1
  {
    if step - 1 > 1 then step - 1 else 1
  }

  /** The Next button: `Math.min(last, step + 1)`. */
  function Next(step: int, last: int): (r: int)
    ensures r <= last && r <= step + 1
    ensures step < last ==> r == step + 1
    ensures step >= last ==> r == last
  {
    if step + 1 < last then step + 1 else last
  }

  /** A click on the wizard's footer. Next is shown on every step but the
      last and is disabled unless the step's fields pass. */
  datatype StepClick = PreviousClick | NextClick(canProceed: bool)

  function Advance(step: int, last: int, c: StepClick): int {
    match c
    case PreviousClick => Previous(step)
    case NextClick(ok) => if ok && step != last then Next(step, last) else step
  }

  function RunSteps(step: int, last: int, clicks: seq<StepClick>): int
    decreases |clicks|
  {
    if |clicks| == 0 then step else RunSteps(Advance(step, last, clicks[0]), last, clicks[1..])
  }

  /** Starting from step 1, any clicks keep the step within 1..last. */
  lemma {:induction false} StepsStayInRange(step: int, last: int, clicks: seq<StepClick>)
    requires 1 <= step <= last
    ensures 1 <= RunSteps(step, last, clicks) <= last
    decreases |clicks|
  {
    if |clicks| > 0 {
      StepsStayInRange(Advance(step, last, clicks[0]), last, clicks[1..]);
    }
  }

  /** Next moves exactly one step forward, and only when the step's fields pass. */
  lemma NextNeedsProceed(step: int, last: int, ok: bool)
    requires 1 <= step <= last
    ensures Advance(step, last, NextClick(ok)) == if ok && step < last then step + 1 else step
  {
  }
}

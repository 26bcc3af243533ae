/** The form built from a list of questions, and the validator of what comes back. */
module ElicitationForm {
  import opened Runs

  datatype AskOption = AskOption(name: string, description: string)
  datatype Question = Question(header: string, options: seq<AskOption>, multiSelect: bool)

  // Decoded JSON, as far as the validator looks.
  datatype Json = JNull | JBool(b: bool) | JString(s: string) | JArray(items: seq<Json>) | JOther

  // A property as the builder makes it.
  datatype Items = EnumOf(labels: seq<string>) | AnyOf(options: seq<AskOption>)
  datatype Property =
    | StringProperty(title: string, oneOf: seq<AskOption>)
    | BoolProperty(title: string)
    | ArrayProperty(title: string, items: Items)

  // A property as the validator reads it back: only the fields it uses.
  datatype PropType = TString | TBool | TArray | TUnknown
  datatype ItemsView = ItemsView(enumeration: seq<string>, anyOf: seq<string>, oneOf: seq<string>)
  datatype View = View(typ: PropType, oneOf: seq<string>, enumeration: seq<string>, items: Option<ItemsView>,
                       minLength: Option<int>, maxLength: Option<int>)

  // No view where a property cannot be read back.
  datatype Schema = Schema(required: seq<string>, properties: map<string, Option<View>>)

  datatype Violation = Fine | NoContent | Missing(name: string) | Bad(key: string)

  // Keys.

  function Decimal(n: nat): (s: string)
    ensures s != ""
  {
    var d := [('0' as int + n % 10) as char];
    if n < 10 then d else Decimal(n / 10) + d
  }

  function Key(i: nat): string { "q" + Decimal(i + 1) }

  lemma {:induction false} DecimalInjective(m: nat, n: nat)
    requires Decimal(m) == Decimal(n)
    ensures m == n
  {
    assert Decimal(m)[|Decimal(m)|-1] == ('0' as int + m % 10) as char;
    assert Decimal(n)[|Decimal(n)|-1] == ('0' as int + n % 10) as char;
    assert m % 10 == n % 10;
    if m >= 10 && n >= 10 {
      assert Decimal(m)[..|Decimal(m)|-1] == Decimal(m / 10);
      assert Decimal(n)[..|Decimal(n)|-1] == Decimal(n / 10);
      DecimalInjective(m / 10, n / 10);
    }
  }

  lemma KeysDiffer(i: nat, j: nat)
    requires Key(i) == Key(j)
    ensures i == j
  {
    assert Decimal(i + 1) == Key(i)[1..] && Decimal(j + 1) == Key(j)[1..];
    DecimalInjective(i + 1, j + 1);
  }

  // A number read from its decimal digits.
  function ReadDecimal(s: string): int {
    if s == "" then 0 else ReadDecimal(s[..|s|-1]) * 10 + (s[|s|-1] as int - '0' as int)
  }

  lemma {:induction false} DecimalReads(n: nat)
    ensures ReadDecimal(Decimal(n)) == n
    ensures forall i :: 0 <= i < |Decimal(n)| ==> '0' <= Decimal(n)[i] <= '9'
    ensures n > 0 ==> Decimal(n)[0] != '0'
  {
    var s, c := Decimal(n), ('0' as int + n % 10) as char;
    if n < 10 {
      assert s == [c] && s[..0] == "" && ReadDecimal("") == 0;
    } else {
      DecimalReads(n / 10);
      assert s == Decimal(n / 10) + [c] && s[..|s|-1] == Decimal(n / 10);
    }
  }

  /** The keys are q1, q2, ...: a q and the question's number in decimal. */
  lemma KeysAreNumbered(i: nat)
    ensures Key(i)[0] == 'q' && ReadDecimal(Key(i)[1..]) == i + 1
    ensures |Key(i)| > 1 && Key(i)[1] != '0' && forall k :: 1 <= k < |Key(i)| ==> '0' <= Key(i)[k] <= '9'
  {
    DecimalReads(i + 1);
    assert Key(i)[1..] == Decimal(i + 1);
    assert forall k :: 1 <= k < |Key(i)| ==> Key(i)[k] == Decimal(i + 1)[k-1];
  }

  // The builder.

  // Simple Unicode case folding of the letters of yes and no; the long s folds to s.
  predicate FoldsTo(c: char, lower: char)
    requires 'a' <= lower <= 'z'
  {
    c == lower || c as int == lower as int - 32 || (lower == 's' && c == '\U{017f}')
  }

  predicate IsYes(s: string) { |s| == 3 && FoldsTo(s[0], 'y') && FoldsTo(s[1], 'e') && FoldsTo(s[2], 's') }
  predicate IsNo(s: string) { |s| == 2 && FoldsTo(s[0], 'n') && FoldsTo(s[1], 'o') }

  predicate IsBooleanAsk(q: Question) {
    !q.multiSelect && |q.options| == 2 && IsYes(q.options[0].name) && IsNo(q.options[1].name)
  }

  function Lower(s: string): string {
    seq(|s|, i requires 0 <= i < |s| =>
      if 'A' <= s[i] <= 'Z' then (s[i] as int + 32) as char else if s[i] == '\U{017f}' then 's' else s[i])
  }

  /** A question counts as yes or no exactly if it has one answer and just the two options yes and
      no, in that order and in any case. */
  lemma BooleanAskMeans(q: Question)
    ensures IsBooleanAsk(q) <==>
      !q.multiSelect && |q.options| == 2 && Lower(q.options[0].name) == "yes" && Lower(q.options[1].name) == "no"
  {
    if |q.options| == 2 {
      var y, n := q.options[0].name, q.options[1].name;
      assert |y| == 3 ==> (Lower(y) == "yes" <==> Lower(y)[0] == 'y' && Lower(y)[1] == 'e' && Lower(y)[2] == 's');
      assert |n| == 2 ==> (Lower(n) == "no" <==> Lower(n)[0] == 'n' && Lower(n)[1] == 'o');
      assert Lower(y) == "yes" ==> |y| == 3;
      assert Lower(n) == "no" ==> |n| == 2;
    }
  }

  function Labels(opts: seq<AskOption>): seq<string> {
    seq(|opts|, i requires 0 <= i < |opts| => opts[i].name)
  }

  predicate Titled(q: Question) { exists i :: 0 <= i < |q.options| && q.options[i].description != "" }

  method MultiSelectItems(q: Question) returns (items: Items)
    ensures items == if Titled(q) then AnyOf(q.options) else EnumOf(Labels(q.options))
  {
    var titled := false;
    for i := 0 to |q.options|
      invariant titled <==> exists k :: 0 <= k < i && q.options[k].description != ""
    {
      if q.options[i].description != "" {
        titled := true;
        break;
      }
    }
    if titled {
      return AnyOf(q.options);
    }
    var labels: seq<string> := [];
    for i := 0 to |q.options|
      invariant |labels| == i && forall k :: 0 <= k < i ==> labels[k] == q.options[k].name
    {
      labels := labels + [q.options[i].name];
    }
    assert labels == Labels(q.options);
    return EnumOf(labels);
  }

  function PropertyFor(q: Question, boolAdvertised: bool): Property {
    if q.multiSelect then
      ArrayProperty(q.header, if Titled(q) then AnyOf(q.options) else EnumOf(Labels(q.options)))
    else if IsBooleanAsk(q) && boolAdvertised then BoolProperty(q.header)
    else StringProperty(q.header, q.options)
  }

  // Marshalling a property and reading it back as a view.
  function ReadBack(p: Property): View {
    match p
    case StringProperty(_, oneOf) => View(TString, Labels(oneOf), [], None, None, None)
    case BoolProperty(_) => View(TBool, [], [], None, None, None)
    case ArrayProperty(_, EnumOf(labels)) => View(TArray, [], [], Some(ItemsView(labels, [], [])), None, None)
    case ArrayProperty(_, AnyOf(options)) => View(TArray, [], [], Some(ItemsView([], Labels(options), [])), None, None)
  }

  predicate IsForm(qs: seq<Question>, boolAdvertised: bool, s: Schema) {
    && |s.required| == |qs|
    && (forall i :: 0 <= i < |qs| ==>
          s.required[i] == Key(i) && Key(i) in s.properties &&
          s.properties[Key(i)] == Some(ReadBack(PropertyFor(qs[i], boolAdvertised))))
    && (forall k :: k in s.properties ==> k in s.required)
  }

  /** One required property q1, q2, ... for each question, and no other. */
  method BuildElicitationForm(qs: seq<Question>, boolAdvertised: bool) returns (s: Schema)
    ensures IsForm(qs, boolAdvertised, s)
  {
    s := Schema([], map[]);
    for i := 0 to |qs|
      invariant IsForm(qs[..i], boolAdvertised, s)
    {
      var q, key := qs[i], Key(i);
      var property: Property;
      if q.multiSelect {
        var items := MultiSelectItems(q);
        property := ArrayProperty(q.header, items);
      } else if IsBooleanAsk(q) && boolAdvertised {
        property := BoolProperty(q.header);
      } else if |q.options| > 0 {
        property := StringProperty(q.header, q.options);
      } else {
        property := StringProperty(q.header, []);
      }
      assert property == PropertyFor(q, boolAdvertised);
      AddProperty(qs, boolAdvertised, s, i, ReadBack(property));
      s := Schema(s.required + [key], s.properties[key := Some(ReadBack(property))]);
    }
    assert qs[..|qs|] == qs;
  }

  lemma AddProperty(qs: seq<Question>, boolAdvertised: bool, s: Schema, i: nat, v: View)
    requires i < |qs| && IsForm(qs[..i], boolAdvertised, s) && v == ReadBack(PropertyFor(qs[i], boolAdvertised))
    ensures IsForm(qs[..i+1], boolAdvertised, Schema(s.required + [Key(i)], s.properties[Key(i) := Some(v)]))
  {
    hide Key, ReadBack, PropertyFor;
    forall k | 0 <= k < i ensures Key(k) != Key(i) {
      if Key(k) == Key(i) { KeysDiffer(k, i); }
    }
    assert forall k :: 0 <= k < i ==> qs[..i+1][k] == qs[..i][k];
    assert forall x :: x in s.required ==> x in s.required + [Key(i)];
    assert (s.required + [Key(i)])[i] == Key(i);
  }

  // The validator.

  predicate StringOk(v: View, s: string) {
    && (|v.oneOf| > 0 ==> s in v.oneOf)
    && (|v.enumeration| > 0 ==> s in v.enumeration)
    && (v.minLength.Some? ==> |s| >= v.minLength.value)
    && (v.maxLength.Some? ==> |s| <= v.maxLength.value)
  }

  predicate ItemOk(items: Option<ItemsView>, s: string) {
    items.Some? ==>
      && (|items.value.enumeration| > 0 ==> s in items.value.enumeration)
      && (|items.value.anyOf| > 0 ==> s in items.value.anyOf)
      && (|items.value.oneOf| > 0 ==> s in items.value.oneOf)
  }

  /** A text passes exactly if each list of choices that there is has it and its length is within
      the bounds that there are. */
  lemma TextPasses(s: string, oneOf: seq<string>, enumeration: seq<string>, least: int, most: int)
    ensures StringOk(View(TString, oneOf, enumeration, None, Some(least), Some(most)), s) <==>
      (oneOf == [] || s in oneOf) && (enumeration == [] || s in enumeration) && least <= |s| <= most
    ensures StringOk(View(TString, oneOf, enumeration, None, None, None), s) <==>
      (oneOf == [] || s in oneOf) && (enumeration == [] || s in enumeration)
    ensures ItemOk(Some(ItemsView(enumeration, [], oneOf)), s) && ItemOk(Some(ItemsView([], oneOf, [])), s) <==>
      (oneOf == [] || s in oneOf) && (enumeration == [] || s in enumeration)
  {
  }

  // Reading a JSON value into a string: a null leaves it empty.
  function AsString(j: Json): Option<string> {
    match j
    case JString(s) => Some(s)
    case JNull => Some("")
    case _ => None
  }

  predicate ItemsOk(v: View, items: seq<Json>) {
    forall i :: 0 <= i < |items| ==> AsString(items[i]).Some? && ItemOk(v.items, AsString(items[i]).value)
  }

  predicate ValueOk(v: View, j: Json) {
    !j.JNull? &&
    match v.typ
    case TString => j.JString? && StringOk(v, j.s)
    case TBool => j.JBool?
    case TArray => j.JArray? && ItemsOk(v, j.items)
    case TUnknown => true
  }

  predicate KeyOk(s: Schema, content: map<string, Json>, k: string) {
    k in content && k in s.properties && s.properties[k].Some? ==> ValueOk(s.properties[k].value, content[k])
  }

  predicate Accepts(s: Schema, content: Option<map<string, Json>>) {
    (s.required == [] && s.properties == map[]) ||
    (content.Some? && (forall i :: 0 <= i < |s.required| ==> s.required[i] in content.value) &&
     forall k :: k in content.value ==> KeyOk(s, content.value, k))
  }

  method ValidateArrayValue(v: View, j: Json) returns (ok: bool)
    ensures ok <==> j.JArray? && ItemsOk(v, j.items)
  {
    if !j.JArray? {
      return false;
    }
    for i := 0 to |j.items|
      invariant ItemsOk(v, j.items[..i])
    {
      var s := AsString(j.items[i]);
      if s.None? || !ItemOk(v.items, s.value) {
        assert !ItemsOk(v, j.items);
        return false;
      }
    }
    assert j.items[..|j.items|] == j.items;
    return true;
  }

  method ValidatePropValue(v: View, j: Json) returns (ok: bool)
    ensures ok <==> ValueOk(v, j)
  {
    if j.JNull? {
      return false;
    }
    match v.typ {
      case TString => ok := j.JString? && StringOk(v, j.s);
      case TBool => ok := j.JBool?;
      case TArray => ok := ValidateArrayValue(v, j);
      case TUnknown => ok := true;
    }
  }

  // Byte order of keys.
  predicate Before(a: string, b: string) {
    b != "" && (a == "" || a[0] < b[0] || (a[0] == b[0] && Before(a[1..], b[1..])))
  }

  // The first difference is a smaller character, or a ends where b goes on.
  predicate SmallerAt(a: string, b: string, n: nat) {
    n <= |a| && n < |b| && a[..n] == b[..n] && (n == |a| || a[n] < b[n])
  }

  lemma {:induction false} BeforeMeans(a: string, b: string)
    ensures Before(a, b) <==> exists n: nat :: SmallerAt(a, b, n)
  {
    if b != "" {
      if a == "" || a[0] < b[0] {
        assert SmallerAt(a, b, 0);
      } else {
        BeforeMeans(a[1..], b[1..]);
        if n: nat :| SmallerAt(a[1..], b[1..], n) && a[0] == b[0] {
          assert a[..n+1] == [a[0]] + a[1..][..n] && b[..n+1] == [b[0]] + b[1..][..n];
          assert SmallerAt(a, b, n + 1);
        }
        if n: nat :| SmallerAt(a, b, n) {
          if n > 0 {
            assert a[0] == a[..n][0] == b[..n][0] == b[0];
            assert a[1..][..n-1] == a[..n][1..] && b[1..][..n-1] == b[..n][1..];
            assert SmallerAt(a[1..], b[1..], n - 1);
          }
        }
      }
    }
  }

  lemma {:induction false} BeforeTotal(a: string, b: string)
    ensures Before(a, b) || a == b || Before(b, a)
  {
    if a != "" && b != "" && a[0] == b[0] {
      BeforeTotal(a[1..], b[1..]);
      assert a[1..] == b[1..] ==> a == [a[0]] + a[1..] == b;
    }
  }

  lemma {:induction false} BeforeTransitive(a: string, b: string, c: string)
    requires Before(a, b) && Before(b, c)
    ensures Before(a, c)
  {
    if a != "" && a[0] == b[0] && b[0] == c[0] { BeforeTransitive(a[1..], b[1..], c[1..]); }
  }

  lemma {:induction false} BeforeIrreflexive(a: string)
    ensures !Before(a, a)
  {
    if a != "" { BeforeIrreflexive(a[1..]); }
  }

  // The first of a set of keys in byte order.
  method FirstKey(ks: set<string>) returns (k: string)
    requires ks != {}
    ensures k in ks && forall x :: x in ks && x != k ==> Before(k, x)
  {
    k :| k in ks;
    var rest := ks - {k};
    while rest != {}
      invariant rest <= ks && k in ks && k !in rest
      invariant forall x :: x in ks && x !in rest && x != k ==> Before(k, x)
    {
      var x :| x in rest;
      BeforeTotal(k, x);
      if Before(x, k) {
        forall y | y in ks && y !in rest && y != k ensures Before(x, y) { BeforeTransitive(x, k, y); }
        k := x;
      }
      rest := rest - {x};
    }
  }

  /** The verdict and, when it is a violation, which: no content, else the first required key that
      is missing, else the first key in byte order whose value is bad. Keys the schema does not
      know are ignored. */
  method ValidateElicitationContent(s: Schema, content: Option<map<string, Json>>) returns (r: Violation)
    ensures r == Fine <==> Accepts(s, content)
    ensures r == NoContent ==> content.None? && s.required == []
    ensures r.Missing? ==>
              exists i :: 0 <= i < |s.required| && s.required[i] == r.name &&
                (content.None? ==> i == 0) && (content.Some? ==> r.name !in content.value) &&
                forall j :: 0 <= j < i && content.Some? ==> s.required[j] in content.value
    ensures r.Bad? ==>
              && content.Some? && r.key in content.value && !KeyOk(s, content.value, r.key)
              && (forall i :: 0 <= i < |s.required| ==> s.required[i] in content.value)
              && (forall k :: k in content.value && Before(k, r.key) ==> KeyOk(s, content.value, k))
  {
    hide ValueOk, Before;
    if s.required == [] && s.properties == map[] {
      return Fine;
    }
    if content.None? {
      return if s.required == [] then NoContent else Missing(s.required[0]);
    }
    var c := content.value;
    for i := 0 to |s.required|
      invariant forall j :: 0 <= j < i ==> s.required[j] in c
    {
      if s.required[i] !in c {
        return Missing(s.required[i]);
      }
    }
    var known := set k | k in c && k in s.properties;
    var rest := known;
    while rest != {}
      invariant rest <= known
      invariant forall k :: k in known && k !in rest ==> KeyOk(s, c, k)
    {
      var k := FirstKey(rest);
      if s.properties[k].Some? {
        var ok := ValidatePropValue(s.properties[k].value, c[k]);
        if !ok {
          forall x | x in c && Before(x, k) ensures KeyOk(s, c, x) { BeforeNot(x, k); }
          return Bad(k);
        }
      }
      rest := rest - {k};
    }
    return Fine;
  }

  lemma BeforeNot(a: string, b: string)
    requires Before(a, b)
    ensures a != b && !Before(b, a)
  {
    if Before(b, a) { BeforeTransitive(a, b, a); }
    BeforeIrreflexive(a);
  }

  // What the questions ask for.

  /** An answer to one question, said without the form: strings from its labels for a choice of
      several, yes or no where the client can show it, one of its labels for a choice, and any text
      where nothing is offered. */
  predicate Answers(q: Question, boolAdvertised: bool, j: Json) {
    var labels := Labels(q.options);
    if q.multiSelect then
      j.JArray? && forall i :: 0 <= i < |j.items| ==> j.items[i].JString? && (labels == [] || j.items[i].s in labels)
    else if IsBooleanAsk(q) && boolAdvertised then j.JBool?
    else j.JString? && (labels == [] || j.s in labels)
  }

  // A null among the items of an array counts as the empty string.
  function NullItemsEmpty(j: Json): Json {
    if j.JArray? then
      JArray(seq(|j.items|, i requires 0 <= i < |j.items| => if j.items[i].JNull? then JString("") else j.items[i]))
    else j
  }

  lemma ValueIsAnswer(q: Question, boolAdvertised: bool, j: Json)
    ensures ValueOk(ReadBack(PropertyFor(q, boolAdvertised)), j) <==> Answers(q, boolAdvertised, NullItemsEmpty(j))
  {
    var v := ReadBack(PropertyFor(q, boolAdvertised));
    if q.multiSelect && j.JArray? {
      var labels, n := Labels(q.options), NullItemsEmpty(j);
      forall s ensures ItemOk(v.items, s) <==> labels == [] || s in labels {}
      assert forall i :: 0 <= i < |j.items| ==>
        n.items[i] == if j.items[i].JNull? then JString("") else j.items[i];
    }
  }

  predicate Complete(qs: seq<Question>, boolAdvertised: bool, content: map<string, Json>) {
    forall i :: 0 <= i < |qs| ==> Key(i) in content && Answers(qs[i], boolAdvertised, NullItemsEmpty(content[Key(i)]))
  }

  /** The validator accepts exactly the contents that answer every question under its key,
      whatever else they hold, with a null among chosen items read as the empty string. */
  lemma FormAndValidatorAgree(qs: seq<Question>, boolAdvertised: bool, s: Schema, content: Option<map<string, Json>>)
    requires IsForm(qs, boolAdvertised, s)
    ensures Accepts(s, content) <==> qs == [] || (content.Some? && Complete(qs, boolAdvertised, content.value))
  {
    hide ValueOk, ReadBack, PropertyFor, Answers, Key;
    forall i, j | 0 <= i < |qs| ensures
      ValueOk(ReadBack(PropertyFor(qs[i], boolAdvertised)), j) <==> Answers(qs[i], boolAdvertised, NullItemsEmpty(j))
    {
      ValueIsAnswer(qs[i], boolAdvertised, j);
    }
    if qs != [] {
      assert Key(0) in s.properties;
      if content.Some? {
        var c := content.value;
        if Accepts(s, content) {
          forall i | 0 <= i < |qs|
            ensures Key(i) in c && Answers(qs[i], boolAdvertised, NullItemsEmpty(c[Key(i)]))
          {
            assert s.required[i] in c && KeyOk(s, c, Key(i));
          }
        }
        if Complete(qs, boolAdvertised, c) {
          forall k | k in c ensures KeyOk(s, c, k) {
            if k in s.properties {
              var i :| 0 <= i < |s.required| && s.required[i] == k;
              assert Key(i) == k;
            }
          }
        }
      }
    } else {
      assert s.properties == map[];
    }
  }

  /** Null items are the only way in which the validator is wider than the questions: a value is
      accepted without being an answer exactly when some item is null and would do as "". */
  lemma NullItemsAreTheGap(q: Question, boolAdvertised: bool, j: Json)
    ensures ValueOk(ReadBack(PropertyFor(q, boolAdvertised)), j) && !Answers(q, boolAdvertised, j) <==>
            q.multiSelect && Answers(q, boolAdvertised, NullItemsEmpty(j)) && j.JArray? && JNull in j.items
  {
    hide ReadBack, PropertyFor, ValueOk;
    ValueIsAnswer(q, boolAdvertised, j);
    if j.JArray? && JNull !in j.items {
      assert NullItemsEmpty(j).items == j.items;
    }
  }

  /** Keys that belong to no question make no difference. */
  lemma UnknownKeysIgnored(qs: seq<Question>, boolAdvertised: bool, s: Schema,
                           a: map<string, Json>, b: map<string, Json>)
    requires IsForm(qs, boolAdvertised, s)
    requires forall i :: 0 <= i < |qs| ==> (Key(i) in a <==> Key(i) in b) && (Key(i) in a ==> a[Key(i)] == b[Key(i)])
    ensures Accepts(s, Some(a)) <==> Accepts(s, Some(b))
  {
    hide Accepts, IsForm, Key, Answers;
    FormAndValidatorAgree(qs, boolAdvertised, s, Some(a));
    FormAndValidatorAgree(qs, boolAdvertised, s, Some(b));
  }
}

/** Form validation: a per-field rule checker that stops at the first
    failing rule, a form checker that collects one message per failing field,
    the inventory's rule set, and the HTML-escaping input sanitiser. */
module Validation {
  import opened Collections
  import opened Text

  /** The field values a form can hold (`unknown` in the source). Numbers
      are integers. */
  datatype Value = Null | Undefined | Str(s: string) | Num(n: int)

  /** `value === null || value === undefined || value === ''` */
  predicate IsMissing(v: Value) {
    v.Null? || v.Undefined? || v == Str("")
  }

  /** `!value`: JavaScript's falsy values among the modelled ones. */
  predicate IsFalsy(v: Value) {
    IsMissing(v) || v == Num(0)
  }

  /** `String(value)` */
  function ToText(v: Value): string {
    match v
    case Null => "null"
    case Undefined => "undefined"
    case Str(s) => s
    case Num(n) => IntToString(n)
  }

  /** `Number(value)`, with None standing for `NaN`. */
  function ToNumber(v: Value): Option<int> {
    match v
    case Null => Some(0)
    case Undefined => None
    case Str(s) => ParseNumber(s)
    case Num(n) => Some(n)
  }

  /** `Number(value) < bound`, which is false for `NaN`. */
  predicate NumberBelow(v: Value, bound: int) {
    ToNumber(v).Some? && ToNumber(v).value < bound
  }

  /** `Number(value) > bound`, which is false for `NaN`. */
  predicate NumberAbove(v: Value, bound: int) {
    ToNumber(v).Some? && ToNumber(v).value > bound
  }

  // ---------------------------------------------------------------------
  // The e-mail pattern /^[^\s@]+@[^\s@]+\.[^\s@]+$/
  // ---------------------------------------------------------------------

  /** A character the class `[^\s@]` accepts. */
  predicate EmailChar(c: char) {
    !IsSpace(c) && c != '@'
  }

  predicate AllEmailChars(s: string) {
    forall i :: 0 <= i < |s| ==> EmailChar(s[i])
  }

  /** The position of the first '@', or |s| when there is none. */
  function IndexOfAt(s: string): (k: nat)
    ensures k <= |s|
    ensures k < |s| ==> s[k] == '@'
    ensures forall j :: 0 <= j < k ==> s[j] != '@'
  {
    if s == [] then 0 else if s[0] == '@' then 0 else 1 + IndexOfAt(s[1..])
  }

  /** The part after '@' matches `[^\s@]+\.[^\s@]+`. */
  predicate DomainMatches(d: string) {
    AllEmailChars(d) && exists k :: 0 < k < |d| - 1 && d[k] == '.'
  }

  /** `emailRegex.test(s)`, decided by locating the '@'. */
  predicate MatchesEmail(s: string) {
    var at := IndexOfAt(s);
    0 < at < |s| && AllEmailChars(s[..at]) && DomainMatches(s[at + 1..])
  }

  /** What the pattern describes, read off the regular expression: a
      non-empty local part, one '@', a domain with a '.' that is neither its
      first nor its last character, and no white space or further '@'. */
  ghost predicate EmailShape(s: string) {
    exists at, dot :: 0 < at && at + 1 < dot && dot + 1 < |s| && s[at] == '@' && s[dot] == '.' &&
                      forall i :: 0 <= i < |s| && i != at ==> EmailChar(s[i])
  }

  /** The scanning check accepts exactly the strings the pattern describes. */
  lemma EmailMatchesShape(s: string)
    ensures MatchesEmail(s) <==> EmailShape(s)
  {
    var at := IndexOfAt(s);
    if MatchesEmail(s) {
      var d := s[at + 1..];
      var k :| 0 < k < |d| - 1 && d[k] == '.';
      assert s[at + 1 + k] == d[k];
      forall i | 0 <= i < |s| && i != at ensures EmailChar(s[i]) {
        if i < at { assert s[i] == s[..at][i]; } else { assert s[i] == d[i - at - 1]; }
      }
      assert 0 < at && at + 1 < at + 1 + k && at + 1 + k + 1 < |s| && s[at] == '@' && s[at + 1 + k] == '.';
    }
    if EmailShape(s) {
      var a, dot :| 0 < a && a + 1 < dot && dot + 1 < |s| && s[a] == '@' && s[dot] == '.' &&
                    forall i :: 0 <= i < |s| && i != a ==> EmailChar(s[i]);
      assert at <= a;
      assert at < |s| && s[at] == '@';
      assert at == a;
      var d := s[at + 1..];
      assert d[dot - at - 1] == '.';
      assert AllEmailChars(d) by {
        forall j | 0 <= j < |d| ensures EmailChar(d[j]) { assert d[j] == s[at + 1 + j]; }
      }
      assert AllEmailChars(s[..at]) by {
        forall j | 0 <= j < at ensures EmailChar(s[..at][j]) { assert s[..at][j] == s[j]; }
      }
    }
  }

  /** An '@' with none before it is the one the scan finds. */
  lemma FirstAt(s: string, k: nat)
    requires k < |s| && s[k] == '@' && forall j :: 0 <= j < k ==> s[j] != '@'
    ensures IndexOfAt(s) == k
  {
  }

  /** Addresses the pattern accepts. */
  lemma EmailAccepts()
    ensures MatchesEmail("test@example.com")
  {
    var s := "test@example.com";
    FirstAt(s, 4);
    assert s[..4] == "test";
    assert s[5..] == "example.com";
    LocalPartChars();
    DomainPartMatches();
  }

  lemma LocalPartChars()
    ensures AllEmailChars("test")
  {
  }

  lemma DomainPartMatches()
    ensures DomainMatches("example.com")
  {
    assert "example.com"[7] == '.';
  }

  /** Addresses the pattern rejects: no '@', nothing after or before the
      '@', and white space in the local part. */
  lemma EmailRejects()
    ensures !MatchesEmail("invalid")
    ensures !MatchesEmail("test@")
    ensures !MatchesEmail("@example.com")
    ensures !MatchesEmail("test @example.com")
  {
    NoAtSign();
    NothingAfterAt();
    NothingBeforeAt();
    SpaceInLocalPart();
  }

  lemma NoAtSign()
    ensures !MatchesEmail("invalid")
  {
    assert IndexOfAt("invalid") == 7;
  }

  lemma NothingAfterAt()
    ensures !MatchesEmail("test@")
  {
    FirstAt("test@", 4);
  }

  lemma NothingBeforeAt()
    ensures !MatchesEmail("@example.com")
  {
    FirstAt("@example.com", 0);
  }

  /** White space before the first '@' is rejected. */
  lemma SpaceBeforeAt(s: string, i: nat, at: nat)
    requires i < at < |s| && s[at] == '@' && forall j :: 0 <= j < at ==> s[j] != '@'
    requires IsSpace(s[i])
    ensures !MatchesEmail(s)
  {
    FirstAt(s, at);
    assert s[..at][i] == s[i];
  }

  lemma SpaceInLocalPart()
    ensures !MatchesEmail("test @example.com")
  {
    SpaceBeforeAt("test @example.com", 4, 5);
  }

  // ---------------------------------------------------------------------
  // validateField
  // ---------------------------------------------------------------------

  /** A rule set (`ValidationRule`); an absent optional rule is None or
      false. `pattern` and `custom` are caller-supplied predicates. */
  datatype ValidationRule = ValidationRule(
    required: bool,
    minLength: Option<int>,
    maxLength: Option<int>,
    min: Option<int>,
    max: Option<int>,
    pattern: Option<string -> bool>,
    email: bool,
    numeric: bool,
    positive: bool,
    custom: Option<Value -> bool>)

  const NoRules: ValidationRule := ValidationRule(false, None, None, None, None, None, false, false, false, None)

  datatype ValidationResult = Valid | Invalid(error: string)

  /** A message about field `name`: the field name followed by `text`. */
  function Message(name: string, text: string): (m: string)
    ensures |m| == |name| + |text| && m[..|name|] == name
  {
    name + text
  }

  function RequiredMessage(name: string): string { Message(name, " es requerido") }

  // One failure test per rule, in the order the checker applies them.
  predicate EmailFails(v: Value, rules: ValidationRule) {
    rules.email && !MatchesEmail(ToText(v))
  }
  predicate NumericFails(v: Value, rules: ValidationRule) {
    rules.numeric && ToNumber(v).None?
  }
  predicate PositiveFails(v: Value, rules: ValidationRule) {
    rules.positive && (ToNumber(v).None? || ToNumber(v).value < 0)
  }
  predicate MinFails(v: Value, rules: ValidationRule) {
    rules.min.Some? && NumberBelow(v, rules.min.value)
  }
  predicate MaxFails(v: Value, rules: ValidationRule) {
    rules.max.Some? && NumberAbove(v, rules.max.value)
  }
  predicate MinLengthFails(v: Value, rules: ValidationRule) {
    rules.minLength.Some? && |ToText(v)| < rules.minLength.value
  }
  predicate MaxLengthFails(v: Value, rules: ValidationRule) {
    rules.maxLength.Some? && |ToText(v)| > rules.maxLength.value
  }
  predicate PatternFails(v: Value, rules: ValidationRule) {
    rules.pattern.Some? && !rules.pattern.value(ToText(v))
  }
  predicate CustomFails(v: Value, rules: ValidationRule) {
    rules.custom.Some? && !rules.custom.value(v)
  }

  /** `validateField(value, rules, fieldName)`: a missing required value
      fails first; any other falsy value of an optional field passes without
      further checks; otherwise the first failing rule gives the message. */
  function ValidateField(v: Value, rules: ValidationRule, name: string): (r: ValidationResult)
    ensures rules.required && IsMissing(v) ==> r == Invalid(RequiredMessage(name))
    ensures !rules.required && IsFalsy(v) ==> r == Valid
    ensures r.Invalid? ==> |r.error| > |name| && r.error[..|name|] == name
  {
    if rules.required && IsMissing(v) then Invalid(RequiredMessage(name))
    else if IsFalsy(v) && !rules.required then Valid
    else if EmailFails(v, rules) then Invalid(Message(name, " debe ser un email válido"))
    else if NumericFails(v, rules) then Invalid(Message(name, " debe ser un número"))
    else if PositiveFails(v, rules) then Invalid(Message(name, " debe ser un número positivo"))
    else if MinFails(v, rules) then Invalid(Message(name, " debe ser mayor o igual a " + IntToString(rules.min.value)))
    else if MaxFails(v, rules) then Invalid(Message(name, " debe ser menor o igual a " + IntToString(rules.max.value)))
    else if MinLengthFails(v, rules) then
      Invalid(Message(name, " debe tener al menos " + IntToString(rules.minLength.value) + " caracteres"))
    else if MaxLengthFails(v, rules) then
      Invalid(Message(name, " no debe exceder " + IntToString(rules.maxLength.value) + " caracteres"))
    else if PatternFails(v, rules) then Invalid(Message(name, " tiene un formato inválido"))
    else if CustomFails(v, rules) then Invalid(Message(name, " no cumple con los requisitos"))
    else Valid
  }

  /** The rule at position `k` of the checker's fixed order: email,
      numeric, positive, min, max, minLength, maxLength, pattern, custom. */
  predicate RuleFails(k: nat, v: Value, rules: ValidationRule)
    requires k < 9
  {
    if k == 0 then EmailFails(v, rules)
    else if k == 1 then NumericFails(v, rules)
    else if k == 2 then PositiveFails(v, rules)
    else if k == 3 then MinFails(v, rules)
    else if k == 4 then MaxFails(v, rules)
    else if k == 5 then MinLengthFails(v, rules)
    else if k == 6 then MaxLengthFails(v, rules)
    else if k == 7 then PatternFails(v, rules)
    else CustomFails(v, rules)
  }

  /** The message of the rule at position `k`. */
  function RuleMessage(k: nat, rules: ValidationRule, name: string): string
    requires k < 9
  {
    if k == 0 then Message(name, " debe ser un email válido")
    else if k == 1 then Message(name, " debe ser un número")
    else if k == 2 then Message(name, " debe ser un número positivo")
    else if k == 3 then Message(name, " debe ser mayor o igual a " + IntToString(rules.min.GetOr(0)))
    else if k == 4 then Message(name, " debe ser menor o igual a " + IntToString(rules.max.GetOr(0)))
    else if k == 5 then Message(name, " debe tener al menos " + IntToString(rules.minLength.GetOr(0)) + " caracteres")
    else if k == 6 then Message(name, " no debe exceder " + IntToString(rules.maxLength.GetOr(0)) + " caracteres")
    else if k == 7 then Message(name, " tiene un formato inválido")
    else Message(name, " no cumple con los requisitos")
  }

  /** Rule `k` fails and every rule before it passes. */
  predicate FirstFailingRule(k: nat, v: Value, rules: ValidationRule) {
    k < 9 && RuleFails(k, v, rules) && forall j :: 0 <= j < k ==> !RuleFails(j, v, rules)
  }

  /** Once the required and falsy short cuts are passed, `validateField` is
      "first failure wins" over the nine rules in their fixed order: it is
      valid exactly when no rule fails, and otherwise reports the message of
      the first rule that fails. */
  lemma ValidateFieldIsFirstFailure(v: Value, rules: ValidationRule, name: string)
    requires !(rules.required && IsMissing(v)) && !(IsFalsy(v) && !rules.required)
    ensures ValidateField(v, rules, name).Valid? <==> forall k :: 0 <= k < 9 ==> !RuleFails(k, v, rules)
    ensures forall k :: FirstFailingRule(k, v, rules) ==> ValidateField(v, rules, name) == Invalid(RuleMessage(k, rules, name))
  {
    ValidIffNoRuleFails(v, rules, name);
    forall k | FirstFailingRule(k, v, rules)
      ensures ValidateField(v, rules, name) == Invalid(RuleMessage(k, rules, name))
    {
      FirstFailingRuleDecides(v, rules, name, k);
    }
  }

  lemma ValidIffNoRuleFails(v: Value, rules: ValidationRule, name: string)
    requires !(rules.required && IsMissing(v)) && !(IsFalsy(v) && !rules.required)
    ensures ValidateField(v, rules, name).Valid? <==> forall k :: 0 <= k < 9 ==> !RuleFails(k, v, rules)
  {
    var none := !EmailFails(v, rules) && !NumericFails(v, rules) && !PositiveFails(v, rules) &&
                !MinFails(v, rules) && !MaxFails(v, rules) && !MinLengthFails(v, rules) &&
                !MaxLengthFails(v, rules) && !PatternFails(v, rules) && !CustomFails(v, rules);
    assert ValidateField(v, rules, name).Valid? <==> none;
    assert none ==> forall k :: 0 <= k < 9 ==> !RuleFails(k, v, rules);
    assert (forall k :: 0 <= k < 9 ==> !RuleFails(k, v, rules)) ==>
           !RuleFails(0, v, rules) && !RuleFails(1, v, rules) && !RuleFails(2, v, rules) &&
           !RuleFails(3, v, rules) && !RuleFails(4, v, rules) && !RuleFails(5, v, rules) &&
           !RuleFails(6, v, rules) && !RuleFails(7, v, rules) && !RuleFails(8, v, rules);
  }

  lemma FirstFailingRuleDecides(v: Value, rules: ValidationRule, name: string, k: nat)
    requires !(rules.required && IsMissing(v)) && !(IsFalsy(v) && !rules.required)
    requires FirstFailingRule(k, v, rules)
    ensures ValidateField(v, rules, name) == Invalid(RuleMessage(k, rules, name))
  {
    assert k > 0 ==> !RuleFails(0, v, rules);
    assert k > 1 ==> !RuleFails(1, v, rules);
    assert k > 2 ==> !RuleFails(2, v, rules);
    assert k > 3 ==> !RuleFails(3, v, rules);
    assert k > 4 ==> !RuleFails(4, v, rules);
    assert k > 5 ==> !RuleFails(5, v, rules);
    assert k > 6 ==> !RuleFails(6, v, rules);
    assert k > 7 ==> !RuleFails(7, v, rules);
  }

  /** `min` and `max` are inclusive bounds on a non-zero number. */
  lemma NumberBoundsInclusive(n: int, lo: int, hi: int, name: string)
    requires n != 0
    ensures ValidateField(Num(n), NoRules.(min := Some(lo)), name).Valid? <==> n >= lo
    ensures ValidateField(Num(n), NoRules.(max := Some(hi)), name).Valid? <==> n <= hi
  {
  }

  /** `minLength` and `maxLength` are inclusive bounds on a non-empty text. */
  lemma LengthBoundsInclusive(s: string, lo: int, hi: int, name: string)
    requires s != ""
    ensures ValidateField(Str(s), NoRules.(minLength := Some(lo)), name).Valid? <==> |s| >= lo
    ensures ValidateField(Str(s), NoRules.(maxLength := Some(hi)), name).Valid? <==> |s| <= hi
  {
  }

  /** Zero is falsy: on an optional field it passes even a bound it
      violates, as the "should pass for zero" behaviour shows for `positive`. */
  lemma ZeroSkipsRules(rules: ValidationRule, name: string)
    requires !rules.required
    ensures ValidateField(Num(0), rules.(min := Some(1)), name) == Valid
  {
  }

  // ---------------------------------------------------------------------
  // validateForm
  // ---------------------------------------------------------------------

  /** `formData[fieldName]`, `undefined` when the form has no such field. */
  function FieldValue(formData: map<string, Value>, name: string): Value {
    if name in formData then formData[name] else Undefined
  }

  /** `validateForm(formData, validationRules)`: runs every rule entry and
      records the message of each failing field; the form is valid exactly
      when no message was recorded. Fields without rules are never looked at. */
  method ValidateForm(formData: map<string, Value>, validationRules: map<string, ValidationRule>)
    returns (isValid: bool, errors: map<string, string>)
    ensures errors.Keys <= validationRules.Keys
    ensures forall name :: name in errors ==>
              ValidateField(FieldValue(formData, name), validationRules[name], name) == Invalid(errors[name])
    ensures forall name :: (name in validationRules &&
              ValidateField(FieldValue(formData, name), validationRules[name], name).Invalid?) ==> name in errors
    ensures isValid <==> errors == map[]
  {
    errors := map[];
    var remaining := validationRules.Keys;
    while remaining != {}
      invariant remaining <= validationRules.Keys
      invariant errors.Keys <= validationRules.Keys - remaining
      invariant forall name :: name in errors ==>
                  ValidateField(FieldValue(formData, name), validationRules[name], name) == Invalid(errors[name])
      invariant forall name :: (name in validationRules.Keys - remaining &&
                  ValidateField(FieldValue(formData, name), validationRules[name], name).Invalid?) ==> name in errors
      decreases remaining
    {
      var name :| name in remaining;
      var result := ValidateField(FieldValue(formData, name), validationRules[name], name);
      if result.Invalid? && result.error != "" {
        errors := errors[name := result.error];
      }
      remaining := remaining - {name};
    }
    isValid := |errors| == 0;
  }

  /** A field the form lacks is `undefined`, so a required rule for it
      reports the "es requerido" message. */
  lemma MissingFieldIsRequired(formData: map<string, Value>, rules: ValidationRule, name: string)
    requires name !in formData && rules.required
    ensures ValidateField(FieldValue(formData, name), rules, name) == Invalid(name + " es requerido")
  {
  }

  // ---------------------------------------------------------------------
  // inventoryValidators
  // ---------------------------------------------------------------------

  const NameRule: ValidationRule := NoRules.(required := true, minLength := Some(2), maxLength := Some(100))
  const CategoryRule: ValidationRule := NoRules.(required := true, minLength := Some(2), maxLength := Some(50))
  const StockRule: ValidationRule := NoRules.(required := true, numeric := true, min := Some(0))
  const MinStockRule: ValidationRule := NoRules.(required := true, numeric := true, min := Some(0))
  const PriceRule: ValidationRule := NoRules.(numeric := true, min := Some(0))
  const QuantityRule: ValidationRule := NoRules.(required := true, numeric := true, positive := true)
  const EmailRule: ValidationRule := NoRules.(email := true)

  const InventoryValidators: map<string, ValidationRule> :=
    map["name" := NameRule, "category" := CategoryRule, "stock" := StockRule, "minStock" := MinStockRule,
        "price" := PriceRule, "quantity" := QuantityRule, "email" := EmailRule]

  /** The stock rule rejects every negative stock with the minimum message. */
  lemma StockRuleRejectsNegative(n: int)
    requires n < 0
    ensures ValidateField(Num(n), StockRule, "stock") == Invalid("stock debe ser mayor o igual a 0")
  {
    assert ToNumber(Num(n)) == Some(n);
    assert MinFails(Num(n), StockRule);
    StockMinimumMessage();
  }

  lemma StockMinimumMessage()
    ensures Message("stock", " debe ser mayor o igual a " + IntToString(0)) == "stock debe ser mayor o igual a 0"
  {
    ZeroText();
    assert " debe ser mayor o igual a " + "0" == " debe ser mayor o igual a 0";
    assert "stock" + " debe ser mayor o igual a 0" == "stock debe ser mayor o igual a 0";
  }

  lemma ZeroText()
    ensures IntToString(0) == "0"
  {
    assert NatToString(0) == [DigitChar(0)];
  }

  /** The stock rule accepts every non-negative stock. */
  lemma StockRuleAcceptsNonNegative(n: int)
    requires n >= 0
    ensures ValidateField(Num(n), StockRule, "stock") == Valid
  {
    assert ToNumber(Num(n)) == Some(n);
  }

  /** The quantity rule is `positive`, which admits zero. */
  lemma QuantityRuleAdmitsZero()
    ensures ValidateField(Num(0), QuantityRule, "quantity") == Valid
  {
  }

  /** A name passes its rule exactly when it has 2 to 100 characters. */
  lemma NameRuleBounds(s: string)
    ensures ValidateField(Str(s), NameRule, "name").Valid? <==> 2 <= |s| <= 100
  {
  }

  // ---------------------------------------------------------------------
  // sanitizeInput
  // ---------------------------------------------------------------------

  /** `s.replace(/c/g, entity)` */
  function ReplaceAll(s: string, c: char, entity: string): (r: string)
    ensures c !in entity ==> c !in r
    ensures c !in s ==> r == s
  {
    if s == [] then [] else (if s[0] == c then entity else [s[0]]) + ReplaceAll(s[1..], c, entity)
  }

  /** `sanitizeInput(input)`: the five replace passes, in source order. */
  function SanitizeInput(input: string): string {
    var s1 := ReplaceAll(input, '<', "&lt;");
    var s2 := ReplaceAll(s1, '>', "&gt;");
    var s3 := ReplaceAll(s2, '"', "&quot;");
    var s4 := ReplaceAll(s3, '\'', "&#x27;");
    ReplaceAll(s4, '/', "&#x2F;")
  }

  /** The characters the sanitiser escapes. */
  predicate Escaped(c: char) {
    c == '<' || c == '>' || c == '"' || c == '\'' || c == '/'
  }

  /** The entity a single character becomes. */
  function EscapeChar(c: char): (r: string)
    ensures !Escaped(c) ==> r == [c]
    ensures forall i :: 0 <= i < |r| ==> !Escaped(r[i])
  {
    match c
    case '<' => "&lt;"
    case '>' => "&gt;"
    case '"' => "&quot;"
    case '\'' => "&#x27;"
    case '/' => "&#x2F;"
    case _ => [c]
  }

  /** Character-by-character escaping: the reference the five passes are
      measured against. */
  function Escape(s: string): (r: string)
    ensures forall i :: 0 <= i < |r| ==> !Escaped(r[i])
  {
    if s == [] then []
    else
      var head := EscapeChar(s[0]);
      var rest := Escape(s[1..]);
      assert forall i :: 0 <= i < |head + rest| ==> !Escaped((head + rest)[i]) by {
        forall i | 0 <= i < |head + rest| ensures !Escaped((head + rest)[i]) {
          if i < |head| { assert (head + rest)[i] == head[i]; } else { assert (head + rest)[i] == rest[i - |head|]; }
        }
      }
      head + rest
  }

  lemma {:induction false} ReplaceAllAppend(a: string, b: string, c: char, entity: string)
    ensures ReplaceAll(a + b, c, entity) == ReplaceAll(a, c, entity) + ReplaceAll(b, c, entity)
  {
    if a == [] {
      assert a + b == b;
    } else {
      assert (a + b)[0] == a[0];
      assert (a + b)[1..] == a[1..] + b;
      ReplaceAllAppend(a[1..], b, c, entity);
      var h := if a[0] == c then entity else [a[0]];
      assert h + (ReplaceAll(a[1..], c, entity) + ReplaceAll(b, c, entity))
          == (h + ReplaceAll(a[1..], c, entity)) + ReplaceAll(b, c, entity);
    }
  }

  /** The five passes, applied to a single character. */
  function Passes(s: string): string {
    ReplaceAll(ReplaceAll(ReplaceAll(ReplaceAll(ReplaceAll(s, '<', "&lt;"), '>', "&gt;"), '"', "&quot;"),
                          '\'', "&#x27;"), '/', "&#x2F;")
  }

  /** One pass over a single character. */
  lemma ReplaceAllOne(x: char, c: char, entity: string)
    ensures ReplaceAll([x], c, entity) == if x == c then entity else [x]
  {
    assert [x][1..] == [];
  }

  lemma PassesOfChar(c: char)
    ensures Passes([c]) == EscapeChar(c)
  {
    ReplaceAllOne(c, '<', "&lt;");
    if c == '<' {
      assert '>' !in "&lt;" && '"' !in "&lt;" && '\'' !in "&lt;" && '/' !in "&lt;";
      return;
    }
    ReplaceAllOne(c, '>', "&gt;");
    if c == '>' {
      assert '"' !in "&gt;" && '\'' !in "&gt;" && '/' !in "&gt;";
      return;
    }
    ReplaceAllOne(c, '"', "&quot;");
    if c == '"' {
      assert '\'' !in "&quot;" && '/' !in "&quot;";
      return;
    }
    ReplaceAllOne(c, '\'', "&#x27;");
    if c == '\'' {
      assert '/' !in "&#x27;";
      return;
    }
    ReplaceAllOne(c, '/', "&#x2F;");
  }

  lemma {:induction false} PassesAppend(a: string, b: string)
    ensures Passes(a + b) == Passes(a) + Passes(b)
  {
    var s1a, s1b := ReplaceAll(a, '<', "&lt;"), ReplaceAll(b, '<', "&lt;");
    ReplaceAllAppend(a, b, '<', "&lt;");
    var s2a, s2b := ReplaceAll(s1a, '>', "&gt;"), ReplaceAll(s1b, '>', "&gt;");
    ReplaceAllAppend(s1a, s1b, '>', "&gt;");
    var s3a, s3b := ReplaceAll(s2a, '"', "&quot;"), ReplaceAll(s2b, '"', "&quot;");
    ReplaceAllAppend(s2a, s2b, '"', "&quot;");
    var s4a, s4b := ReplaceAll(s3a, '\'', "&#x27;"), ReplaceAll(s3b, '\'', "&#x27;");
    ReplaceAllAppend(s3a, s3b, '\'', "&#x27;");
    ReplaceAllAppend(s4a, s4b, '/', "&#x2F;");
  }

  /** The chain of `replace` calls escapes each character independently:
      no entity produced by an earlier pass is touched by a later one. */
  lemma {:induction false} SanitizeIsEscape(s: string)
    ensures SanitizeInput(s) == Escape(s)
  {
    if s != [] {
      assert s == [s[0]] + s[1..];
      PassesAppend([s[0]], s[1..]);
      PassesOfChar(s[0]);
      SanitizeIsEscape(s[1..]);
    }
  }

  /** The output never contains any of the five escaped characters. */
  lemma SanitizeRemovesSpecials(s: string)
    ensures forall i :: 0 <= i < |SanitizeInput(s)| ==> !Escaped(SanitizeInput(s)[i])
  {
    SanitizeIsEscape(s);
  }

  /** Text without any of the five characters, the empty string included,
      is returned unchanged; `&` in particular is never escaped. */
  lemma {:induction false} SanitizePlainText(s: string)
    requires forall i :: 0 <= i < |s| ==> !Escaped(s[i])
    ensures SanitizeInput(s) == s
  {
    SanitizeIsEscape(s);
    EscapeOfPlain(s);
  }

  lemma {:induction false} EscapeOfPlain(s: string)
    requires forall i :: 0 <= i < |s| ==> !Escaped(s[i])
    ensures Escape(s) == s
  {
    if s != [] {
      EscapeOfPlain(s[1..]);
    }
  }

  /** Sanitising twice is sanitising once. */
  lemma SanitizeIdempotent(s: string)
    ensures SanitizeInput(SanitizeInput(s)) == SanitizeInput(s)
  {
    SanitizeRemovesSpecials(s);
    SanitizePlainText(SanitizeInput(s));
  }
}

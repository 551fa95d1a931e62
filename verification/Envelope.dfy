/** Checking a settlement envelope, and the canonical terms its fingerprint covers. */
module Envelope {
  import opened Wrappers
  import opened Decimals

  /** A JSON value: text, null, or anything else known by its printed form. */
  datatype Value = Text(text: string) | Null | Plain(printed: string)

  datatype Key =
    | Scheme | Network | Asset | Amount | PayTo | MaxTimeout | Extra
    | From | To | AuthorizedValue | Nonce | ValidAfter | ValidBefore

  type Object = map<Key, Value>

  datatype Envelope = Envelope(
    version: Value, payloadVersion: Value, accepted: Option<Object>, requirements: Object, authorization: Object)

  /** How a decimal literal is read: nothing for text that is no number. */
  type Reader = string -> Option<Dec>

  datatype Error =
    | AcceptedRequired
    | AcceptedLacks(key: Key)
    | RequirementsLack(key: Key)
    | InvalidAmount
    | Mismatch(key: Key)
    | VersionMismatch

  datatype Validation = Valid(accepted: Object) | Invalid(error: Error)

  function Printed(v: Value): string {
    match v
    case Text(text) => text
    case Null => "None"
    case Plain(printed) => printed
  }

  function Get(o: Object, key: Key): Value {
    if key in o then o[key] else Null
  }

  // ---------------------------------------------------------------- letters

  function LowerChar(c: char): char {
    if 'A' <= c <= 'Z' then (c as int + 32) as char else c
  }

  function Lower(text: string): (r: string)
    ensures |r| == |text| && forall i | 0 <= i < |text| :: r[i] == LowerChar(text[i])
  {
    seq(|text|, i requires 0 <= i < |text| => LowerChar(text[i]))
  }

  /** One letter, in either case. */
  predicate SameLetter(c: char, d: char) {
    c == d || ('A' <= c <= 'Z' && d as int == c as int + 32) || ('A' <= d <= 'Z' && c as int == d as int + 32)
  }

  predicate SameLetters(s: string, t: string) {
    |s| == |t| && forall i | 0 <= i < |s| :: SameLetter(s[i], t[i])
  }

  lemma {:induction false} LoweredLetters(s: string, t: string)
    ensures Lower(s) == Lower(t) <==> SameLetters(s, t)
  {
    if Lower(s) == Lower(t) {
      assert |Lower(s)| == |Lower(t)|;
      forall i | 0 <= i < |s| ensures SameLetter(s[i], t[i]) {
        assert Lower(s)[i] == Lower(t)[i];
      }
    }
    if SameLetters(s, t) {
      forall i | 0 <= i < |s| ensures Lower(s)[i] == Lower(t)[i] {
        assert SameLetter(s[i], t[i]);
      }
    }
  }

  predicate IsHex(v: Value) {
    v.Text? && "0x" <= Lower(v.text)
  }

  /** Hexadecimal text is lowered, everything else is left alone. */
  function LowerHex(v: Value): Value {
    if IsHex(v) then Text(Lower(v.text)) else v
  }

  // ---------------------------------------------------------------- validation

  /** The form in which a field of the two objects is compared; nothing for an amount that is no number. */
  function Compared(read: Reader, key: Key, v: Value): Option<string> {
    if (key == Asset || key == PayTo) && v.Text? then Some(Lower(v.text))
    else if key == Amount then
      (match read(Printed(v))
       case None => None
       case Some(d) => Some(Canonical(d)))
    else Some(Printed(v))
  }

  function CheckField(read: Reader, accepted: Object, requirements: Object, key: Key): Option<Error> {
    if key !in accepted then Some(AcceptedLacks(key))
    else if key !in requirements then Some(RequirementsLack(key))
    else
      var a, r := Compared(read, key, accepted[key]), Compared(read, key, requirements[key]);
      if a.None? || r.None? then Some(InvalidAmount) else if a != r then Some(Mismatch(key)) else None
  }

  /** The first complaint, in the order of the fields. */
  function CheckFields(read: Reader, accepted: Object, requirements: Object, keys: seq<Key>): Option<Error> {
    if keys == [] then None
    else
      var first := CheckField(read, accepted, requirements, keys[0]);
      if first.Some? then first else CheckFields(read, accepted, requirements, keys[1..])
  }

  const TERMS := [Scheme, Network, Asset, Amount, PayTo]

  /** `equal` is the comparison of JSON values that the versions and the extra fields use. */
  function Validate(read: Reader, equal: (Value, Value) -> bool, e: Envelope): Validation {
    if e.accepted.None? then Invalid(AcceptedRequired)
    else
      var a, r := e.accepted.value, e.requirements;
      var field := CheckFields(read, a, r, TERMS);
      if field.Some? then Invalid(field.value)
      else if MaxTimeout in a && MaxTimeout in r && Printed(a[MaxTimeout]) != Printed(r[MaxTimeout]) then
        Invalid(Mismatch(MaxTimeout))
      else if !equal(e.payloadVersion, e.version) then Invalid(VersionMismatch)
      else if !equal(Get(a, Extra), Get(r, Extra)) then Invalid(Mismatch(Extra))
      else Valid(a)
  }

  /** An address as it is compared: text without regard to case, anything else as printed. */
  predicate SameAddress(a: Value, b: Value) {
    if a.Text? && b.Text? then SameLetters(a.text, b.text)
    else if a.Text? then Lower(a.text) == Printed(b)
    else if b.Text? then Printed(a) == Lower(b.text)
    else Printed(a) == Printed(b)
  }

  /** Both objects have the field, and it says the same: one number, one address up to case, or one printed value. */
  predicate Agree(read: Reader, accepted: Object, requirements: Object, key: Key) {
    && key in accepted && key in requirements
    && var a, r := accepted[key], requirements[key];
       match key
       case Amount =>
         var x, y := read(Printed(a)), read(Printed(r));
         x.Some? && y.Some? && SameNumber(Rounded(x.value), Rounded(y.value))
       case Asset | PayTo => SameAddress(a, r)
       case _ => Printed(a) == Printed(r)
  }

  lemma {:induction false} AmountsCompared(read: Reader, a: Value, r: Value)
    requires Compared(read, Amount, a).Some? && Compared(read, Amount, r).Some?
    ensures read(Printed(a)).Some? && read(Printed(r)).Some?
    ensures Compared(read, Amount, a) == Compared(read, Amount, r)
            <==> SameNumber(Rounded(read(Printed(a)).value), Rounded(read(Printed(r)).value))
  {
    SameTextSameNumber(read(Printed(a)).value, read(Printed(r)).value);
  }

  lemma {:induction false} AddressesCompared(read: Reader, key: Key, a: Value, r: Value)
    requires key == Asset || key == PayTo
    ensures Compared(read, key, a) == Compared(read, key, r) <==> SameAddress(a, r)
  {
    if a.Text? && r.Text? { LoweredLetters(a.text, r.text); }
  }

  /** Fields agree exactly when their compared forms do. */
  lemma {:induction false} AgreeExactly(read: Reader, accepted: Object, requirements: Object, key: Key)
    requires key in accepted && key in requirements
    ensures Agree(read, accepted, requirements, key) <==>
            && Compared(read, key, accepted[key]).Some? && Compared(read, key, requirements[key]).Some?
            && Compared(read, key, accepted[key]) == Compared(read, key, requirements[key])
  {
    var a, r := accepted[key], requirements[key];
    if key == Amount {
      if Compared(read, key, a).Some? && Compared(read, key, r).Some? { AmountsCompared(read, a, r); }
    } else if key == Asset || key == PayTo {
      AddressesCompared(read, key, a, r);
    }
  }

  lemma {:induction false} ComparedExactly(read: Reader, accepted: Object, requirements: Object, key: Key)
    ensures CheckField(read, accepted, requirements, key).None? <==> Agree(read, accepted, requirements, key)
  {
    if key in accepted && key in requirements { AgreeExactly(read, accepted, requirements, key); }
  }

  /** The complaint about fields is the one about the first field that does not agree. */
  lemma {:induction false} FirstComplaint(read: Reader, accepted: Object, requirements: Object, keys: seq<Key>)
      returns (i: nat)
    requires CheckFields(read, accepted, requirements, keys).Some?
    ensures i < |keys| && !Agree(read, accepted, requirements, keys[i])
    ensures forall j | 0 <= j < i :: Agree(read, accepted, requirements, keys[j])
    ensures CheckFields(read, accepted, requirements, keys).value ==
            if keys[i] !in accepted then AcceptedLacks(keys[i])
            else if keys[i] !in requirements then RequirementsLack(keys[i])
            else if keys[i] == Amount && (read(Printed(accepted[Amount])).None?
                                          || read(Printed(requirements[Amount])).None?) then InvalidAmount
            else Mismatch(keys[i])
  {
    ComparedExactly(read, accepted, requirements, keys[0]);
    if CheckField(read, accepted, requirements, keys[0]).Some? {
      i := 0;
    } else {
      var k := FirstComplaint(read, accepted, requirements, keys[1..]);
      i := k + 1;
    }
  }

  lemma {:induction false} FieldsCheckedExactly(read: Reader, accepted: Object, requirements: Object, keys: seq<Key>)
    ensures CheckFields(read, accepted, requirements, keys).None?
            <==> forall i | 0 <= i < |keys| :: Agree(read, accepted, requirements, keys[i])
  {
    if keys != [] {
      ComparedExactly(read, accepted, requirements, keys[0]);
      FieldsCheckedExactly(read, accepted, requirements, keys[1..]);
      assert forall i | 0 < i < |keys| :: keys[i] == keys[1..][i - 1];
      if forall i | 0 <= i < |keys| :: Agree(read, accepted, requirements, keys[i]) {
        assert Agree(read, accepted, requirements, keys[0]);
        assert forall i | 0 <= i < |keys[1..]| :: keys[1..][i] == keys[i + 1];
      }
    }
  }

  /** An envelope passes exactly when the five terms agree, no timeout differs, and versions and extras are equal. */
  lemma ValidatedExactly(read: Reader, equal: (Value, Value) -> bool, e: Envelope)
    ensures Validate(read, equal, e).Valid? <==>
            && e.accepted.Some?
            && (forall key | key in {Scheme, Network, Asset, Amount, PayTo} ::
                  Agree(read, e.accepted.value, e.requirements, key))
            && (MaxTimeout in e.accepted.value && MaxTimeout in e.requirements ==>
                  Printed(e.accepted.value[MaxTimeout]) == Printed(e.requirements[MaxTimeout]))
            && equal(e.payloadVersion, e.version)
            && equal(Get(e.accepted.value, Extra), Get(e.requirements, Extra))
  {
    if e.accepted.Some? {
      var a, r := e.accepted.value, e.requirements;
      FieldsCheckedExactly(read, a, r, TERMS);
      assert forall i | 0 <= i < |TERMS| :: TERMS[i] in {Scheme, Network, Asset, Amount, PayTo};
      assert TERMS[0] == Scheme && TERMS[1] == Network && TERMS[2] == Asset && TERMS[3] == Amount && TERMS[4] == PayTo;
    }
  }

  predicate TermsAgree(read: Reader, accepted: Object, requirements: Object) {
    forall key | key in {Scheme, Network, Asset, Amount, PayTo} :: Agree(read, accepted, requirements, key)
  }

  predicate TimeoutsDiffer(accepted: Object, requirements: Object) {
    && MaxTimeout in accepted && MaxTimeout in requirements
    && Printed(accepted[MaxTimeout]) != Printed(requirements[MaxTimeout])
  }

  /** Complaints come in order: no accepted object, the terms, the timeout, the versions, the extra fields. */
  lemma {:induction false} ComplainsExactly(read: Reader, equal: (Value, Value) -> bool, e: Envelope)
    requires Validate(read, equal, e).Invalid?
    ensures var error := Validate(read, equal, e).error;
            && (error == AcceptedRequired <==> e.accepted.None?)
            && (e.accepted.Some? ==>
                  var a, r := e.accepted.value, e.requirements;
                  && (!TermsAgree(read, a, r) ==> Some(error) == CheckFields(read, a, r, TERMS))
                  && (TermsAgree(read, a, r) ==>
                        error == if TimeoutsDiffer(a, r) then Mismatch(MaxTimeout)
                                 else if !equal(e.payloadVersion, e.version) then VersionMismatch
                                 else Mismatch(Extra)))
  {
    if e.accepted.Some? {
      FieldsCheckedExactly(read, e.accepted.value, e.requirements, TERMS);
      assert TERMS[0] == Scheme && TERMS[1] == Network && TERMS[2] == Asset && TERMS[3] == Amount && TERMS[4] == PayTo;
      if CheckFields(read, e.accepted.value, e.requirements, TERMS).Some? {
        var i := FirstComplaint(read, e.accepted.value, e.requirements, TERMS);
      }
    }
  }

  // ---------------------------------------------------------------- the fingerprint

  /** A numeric field: absent when null, nothing at all when it is no number. */
  function Number(read: Reader, v: Value): Option<Value> {
    if v.Null? then Some(Null)
    else
      match read(Printed(v))
      case None => None
      case Some(d) => Some(Text(Canonical(d)))
  }

  /** The part of the canonical tuple that is read from the payable object. */
  datatype Terms = Terms(scheme: Value, network: Value, asset: Value, amount: Option<Value>, payTo: Value)

  function TermsOf(read: Reader, o: Object): Terms {
    Terms(Get(o, Scheme), Get(o, Network), LowerHex(Get(o, Asset)), Number(read, Get(o, Amount)),
        LowerHex(Get(o, PayTo)))
  }

  /** The canonical tuple; `transferWithAuthorization` parameters as in EIP-3009. */
  datatype Tuple = Tuple(
    version: Value, provider: string, terms: Terms, payer: Value, to: Value,
    value: Option<Value>, nonce: Value, validAfter: Option<Value>, validBefore: Option<Value>)

  function Payable(e: Envelope): Object {
    if e.accepted.Some? then e.accepted.value else e.requirements
  }

  function TupleOf(read: Reader, e: Envelope, provider: string): Tuple {
    var auth := e.authorization;
    Tuple(e.version, provider, TermsOf(read, Payable(e)), LowerHex(Get(auth, From)), LowerHex(Get(auth, To)),
          Number(read, Get(auth, AuthorizedValue)), LowerHex(Get(auth, Nonce)),
          Number(read, Get(auth, ValidAfter)), Number(read, Get(auth, ValidBefore)))
  }

  /** The fingerprint exists only when every numeric field is a number or absent. */
  function Fingerprint(read: Reader, hash: Tuple -> string, e: Envelope, provider: string): Option<string> {
    var t := TupleOf(read, e, provider);
    if t.terms.amount.None? || t.value.None? || t.validAfter.None? || t.validBefore.None? then None else Some(hash(t))
  }

  // ---------------------------------------------------------------- either object gives the same terms

  /** The two objects hold one value, or hexadecimal text that differs in case only. */
  predicate SameUpToCase(a: Value, b: Value) {
    a == b || (IsHex(a) && IsHex(b))
  }

  lemma LowerHexAgrees(a: Value, b: Value)
    requires (if a.Text? then Lower(a.text) else Printed(a)) == (if b.Text? then Lower(b.text) else Printed(b))
    ensures LowerHex(a) == LowerHex(b) <==> SameUpToCase(a, b)
  {
  }

  /**
   * For a validated envelope, the terms are the same from either object exactly when scheme and network are the same
   * JSON values and asset and payTo are the same or hexadecimal.
   */
  lemma EitherObjectExactly(read: Reader, equal: (Value, Value) -> bool, e: Envelope)
    requires Validate(read, equal, e).Valid? && read("None") == None
    ensures var a, r := e.accepted.value, e.requirements;
            TermsOf(read, a) == TermsOf(read, r) <==>
            && Get(a, Scheme) == Get(r, Scheme) && Get(a, Network) == Get(r, Network)
            && SameUpToCase(Get(a, Asset), Get(r, Asset)) && SameUpToCase(Get(a, PayTo), Get(r, PayTo))
  {
    ValidatedExactly(read, equal, e);
    var a, r := e.accepted.value, e.requirements;
    assert Agree(read, a, r, Scheme) && Agree(read, a, r, Network) && Agree(read, a, r, Amount);
    assert Agree(read, a, r, Asset) && Agree(read, a, r, PayTo);
    AgreeExactly(read, a, r, Amount);
    AgreeExactly(read, a, r, Asset);
    AgreeExactly(read, a, r, PayTo);
    LowerHexAgrees(a[Asset], r[Asset]);
    LowerHexAgrees(a[PayTo], r[PayTo]);
  }

  /** In particular with textual scheme and network and 0x addresses, whatever their case. */
  lemma HexTermsAgree(read: Reader, equal: (Value, Value) -> bool, e: Envelope)
    requires Validate(read, equal, e).Valid? && read("None") == None
    requires var a, r := e.accepted.value, e.requirements;
             && Get(a, Scheme).Text? && Get(r, Scheme).Text? && Get(a, Network).Text? && Get(r, Network).Text?
             && IsHex(Get(a, Asset)) && IsHex(Get(a, PayTo)) && Get(r, Asset).Text? && Get(r, PayTo).Text?
    ensures TermsOf(read, e.accepted.value) == TermsOf(read, e.requirements)
  {
    EitherObjectExactly(read, equal, e);
    ValidatedExactly(read, equal, e);
    var a, r := e.accepted.value, e.requirements;
    assert Agree(read, a, r, Scheme) && Agree(read, a, r, Network) && Agree(read, a, r, Asset) &&
        Agree(read, a, r, PayTo);
  }

  /** Scheme and network are given as text. */
  predicate Textual(o: Object) {
    Get(o, Scheme).Text? && Get(o, Network).Text?
  }

  /** Under an injective hash, validated envelopes with one fingerprint go to one provider, scheme and network. */
  lemma FingerprintFixesTerms(read: Reader, equal: (Value, Value) -> bool, hash: Tuple -> string,
                              d: Envelope, p: string, e: Envelope, q: string)
    requires forall s, t :: hash(s) == hash(t) ==> s == t
    requires Validate(read, equal, d).Valid? && Validate(read, equal, e).Valid?
    requires Fingerprint(read, hash, d, p).Some? && Fingerprint(read, hash, d, p) == Fingerprint(read, hash, e, q)
    ensures p == q
    ensures Printed(Get(d.requirements, Scheme)) == Printed(Get(e.requirements, Scheme))
    ensures Printed(Get(d.requirements, Network)) == Printed(Get(e.requirements, Network))
    ensures Textual(d.requirements) && Textual(e.requirements) ==>
              && Get(d.requirements, Scheme) == Get(e.requirements, Scheme)
              && Get(d.requirements, Network) == Get(e.requirements, Network)
  {
    assert TupleOf(read, d, p) == TupleOf(read, e, q);
    ValidatedExactly(read, equal, d);
    ValidatedExactly(read, equal, e);
    assert Agree(read, d.accepted.value, d.requirements, Scheme) &&
        Agree(read, e.accepted.value, e.requirements, Scheme);
    assert Agree(read, d.accepted.value, d.requirements, Network) &&
        Agree(read, e.accepted.value, e.requirements, Network);
  }

  // ---------------------------------------------------------------- what a fingerprint stands for

  /** Text that starts with 0x or 0X. */
  predicate Hexadecimal(v: Value) {
    v.Text? && |v.text| >= 2 && v.text[0] == '0' && (v.text[1] == 'x' || v.text[1] == 'X')
  }

  /** One value, or one hexadecimal text in whatever case. */
  predicate SameName(a: Value, b: Value) {
    a == b || (Hexadecimal(a) && Hexadecimal(b) && SameLetters(a.text, b.text))
  }

  predicate IsNumber(read: Reader, v: Value) {
    v.Null? || read(Printed(v)).Some?
  }

  /** Both absent, or literals of one number up to the precision that is written out. */
  predicate SameQuantity(read: Reader, a: Value, b: Value) {
    if a.Null? || b.Null? then a.Null? && b.Null?
    else
      var x, y := read(Printed(a)), read(Printed(b));
      x.Some? && y.Some? && SameNumber(Rounded(x.value), Rounded(y.value))
  }

  /** The terms two objects ask for: kind, network and addresses, and how much. */
  predicate SameTerms(read: Reader, a: Object, b: Object) {
    && Get(a, Scheme) == Get(b, Scheme) && Get(a, Network) == Get(b, Network)
    && SameName(Get(a, Asset), Get(b, Asset)) && SameName(Get(a, PayTo), Get(b, PayTo))
    && SameQuantity(read, Get(a, Amount), Get(b, Amount))
  }

  /** One authorization: from whom to whom, how much, when, and under which nonce. */
  predicate SameAuthorization(read: Reader, a: Object, b: Object) {
    && SameName(Get(a, From), Get(b, From)) && SameName(Get(a, To), Get(b, To))
    && SameName(Get(a, Nonce), Get(b, Nonce))
    && SameQuantity(read, Get(a, AuthorizedValue), Get(b, AuthorizedValue))
    && SameQuantity(read, Get(a, ValidAfter), Get(b, ValidAfter))
    && SameQuantity(read, Get(a, ValidBefore), Get(b, ValidBefore))
  }

  /** Two envelopes that make the same payment through the same provider. */
  predicate SamePaid(read: Reader, d: Envelope, p: string, e: Envelope, q: string) {
    && p == q && d.version == e.version
    && SameTerms(read, if d.accepted.Some? then d.accepted.value else d.requirements,
                 if e.accepted.Some? then e.accepted.value else e.requirements)
    && SameAuthorization(read, d.authorization, e.authorization)
  }

  lemma {:induction false} HexIsHexadecimal(v: Value)
    ensures IsHex(v) <==> Hexadecimal(v)
  {
    if v.Text? {
      var low := Lower(v.text);
      if Hexadecimal(v) {
        assert low[0] == '0' && low[1] == 'x';
        assert low[..2] == "0x";
      }
      if IsHex(v) { assert low[..2] == "0x" && low[0] == "0x"[0] && low[1] == "0x"[1]; }
    }
  }

  lemma {:induction false} LoweredName(a: Value, b: Value)
    ensures LowerHex(a) == LowerHex(b) <==> SameName(a, b)
  {
    HexIsHexadecimal(a);
    HexIsHexadecimal(b);
    if a.Text? && b.Text? { LoweredLetters(a.text, b.text); }
    if Hexadecimal(a) { LoweredStaysHex(a.text); }
    if Hexadecimal(b) { LoweredStaysHex(b.text); }
  }

  /** Lowering twice is lowering once, and keeps the 0x. */
  lemma {:induction false} LoweredStaysHex(text: string)
    requires Hexadecimal(Text(text))
    ensures Hexadecimal(Text(Lower(text))) && Lower(Lower(text)) == Lower(text)
  {
    forall i | 0 <= i < |text| ensures Lower(Lower(text))[i] == Lower(text)[i] {}
  }

  lemma {:induction false} SameNumberText(read: Reader, a: Value, b: Value)
    requires Number(read, a).Some? && Number(read, b).Some?
    ensures Number(read, a) == Number(read, b) <==> SameQuantity(read, a, b)
  {
    if !a.Null? && !b.Null? { SameTextSameNumber(read(Printed(a)).value, read(Printed(b)).value); }
  }

  lemma {:induction false} TermsExactly(read: Reader, a: Object, b: Object)
    requires IsNumber(read, Get(a, Amount)) && IsNumber(read, Get(b, Amount))
    ensures TermsOf(read, a) == TermsOf(read, b) <==> SameTerms(read, a, b)
  {
    LoweredName(Get(a, Asset), Get(b, Asset));
    LoweredName(Get(a, PayTo), Get(b, PayTo));
    SameNumberText(read, Get(a, Amount), Get(b, Amount));
  }

  /** There is a fingerprint exactly when every quantity is absent or a number. */
  lemma FingerprintExists(read: Reader, hash: Tuple -> string, e: Envelope, provider: string)
    ensures Fingerprint(read, hash, e, provider).Some? <==>
            && IsNumber(read, Get(if e.accepted.Some? then e.accepted.value else e.requirements, Amount))
            && IsNumber(read, Get(e.authorization, AuthorizedValue))
            && IsNumber(read, Get(e.authorization, ValidAfter)) && IsNumber(read, Get(e.authorization, ValidBefore))
  {
  }

  /** Under an injective hash, two envelopes have one fingerprint exactly when they make the same payment. */
  lemma {:induction false} FingerprintExactly(read: Reader, hash: Tuple -> string, d: Envelope, p: string, e: Envelope,
                                              q: string)
    requires forall s, t :: hash(s) == hash(t) ==> s == t
    requires Fingerprint(read, hash, d, p).Some? && Fingerprint(read, hash, e, q).Some?
    ensures Fingerprint(read, hash, d, p) == Fingerprint(read, hash, e, q) <==> SamePaid(read, d, p, e, q)
  {
    var a, b := d.authorization, e.authorization;
    FingerprintExists(read, hash, d, p);
    FingerprintExists(read, hash, e, q);
    TermsExactly(read, Payable(d), Payable(e));
    LoweredName(Get(a, From), Get(b, From));
    LoweredName(Get(a, To), Get(b, To));
    LoweredName(Get(a, Nonce), Get(b, Nonce));
    SameNumberText(read, Get(a, AuthorizedValue), Get(b, AuthorizedValue));
    SameNumberText(read, Get(a, ValidAfter), Get(b, ValidAfter));
    SameNumberText(read, Get(a, ValidBefore), Get(b, ValidBefore));
    assert TupleOf(read, d, p) == TupleOf(read, e, q) <==> SamePaid(read, d, p, e, q);
  }
}

/** autofill::DataModelWrapper and its subclasses: a uniform "give me the
    value for this field type" view over the autofill dialog's data
    sources (a local profile, a local card, Wallet addresses, instruments
    and full wallets, a plain field map), plus the two loops that copy
    those values into the dialog's inputs and into a web form.

    The C++ class hierarchy with virtual GetInfo becomes one datatype with
    a case per wrapper class; the wrapped data objects become functions
    from field type to text. */
module AutofillWrappers {

  /** The groups a field type belongs to. */
  datatype FieldTypeGroup =
    | NoGroup | Name | NameBilling | Email | Company
    | AddressHome | AddressBilling | PhoneHome | PhoneBilling | CreditCard

  /** The server field types the wrappers treat specially, and the usual
      address and card types. */
  datatype ServerFieldType =
    | UnknownType
    | NameFull | NameBillingFull
    | EmailAddress
    | CompanyName
    | PhoneHomeWholeNumber | PhoneBillingWholeNumber
    | AddressHomeLine1 | AddressHomeLine2 | AddressHomeCity | AddressHomeState
    | AddressHomeZip | AddressHomeCountry
    | AddressBillingLine1 | AddressBillingLine2 | AddressBillingCity | AddressBillingState
    | AddressBillingZip | AddressBillingCountry
    | CreditCardName | CreditCardNumber | CreditCardExpMonth | CreditCardExp4DigitYear
    | CreditCardVerificationCode

  function GroupOf(t: ServerFieldType): FieldTypeGroup
  {
    match t
    case UnknownType => NoGroup
    case NameFull => Name
    case NameBillingFull => NameBilling
    case EmailAddress => Email
    case CompanyName => Company
    case PhoneHomeWholeNumber => PhoneHome
    case PhoneBillingWholeNumber => PhoneBilling
    case AddressHomeLine1 | AddressHomeLine2 | AddressHomeCity | AddressHomeState
       | AddressHomeZip | AddressHomeCountry => AddressHome
    case AddressBillingLine1 | AddressBillingLine2 | AddressBillingCity | AddressBillingState
       | AddressBillingZip | AddressBillingCountry => AddressBilling
    case CreditCardName | CreditCardNumber | CreditCardExpMonth | CreditCardExp4DigitYear
       | CreditCardVerificationCode => CreditCard
  }

  /** An AutofillType as the wrappers see it: the server type it was made
      from, its storable type and its group. */
  datatype AutofillType = AutofillType(serverType: ServerFieldType, storableType: ServerFieldType,
                                       group: FieldTypeGroup)

  /** AutofillType(t) for a server type. */
  function TypeOf(t: ServerFieldType): AutofillType
  {
    AutofillType(t, t, GroupOf(t))
  }

  /** What a profile answers for a type and a variant (GetInfoForVariant). */
  type ProfileSource = (AutofillType, nat) -> string
  /** What an address or a billing/shipping address answers for a type. */
  type InfoSource = AutofillType -> string

  /** A card-like source: its GetInfo and its expiration month as the month
      combobox formats it. */
  datatype CardSource = CardSource(info: AutofillType -> string, formattedExpirationMonth: string)

  /** A full wallet: its card data and its two addresses. */
  datatype FullWallet = FullWallet(card: CardSource, billingAddress: InfoSource, shippingAddress: InfoSource)

  /** One case per wrapper class. */
  datatype Wrapper =
    | EmptyDataModelWrapper
    | AutofillProfileWrapper(profile: ProfileSource, variantGroup: FieldTypeGroup, variant: nat)
    | AutofillShippingAddressWrapper(shippingProfile: ProfileSource)
    | AutofillCreditCardWrapper(card: CardSource)
    | WalletAddressWrapper(address: InfoSource)
    | WalletInstrumentWrapper(instrument: CardSource)
    | FullWalletBillingWrapper(billingWallet: FullWallet)
    | FullWalletShippingWrapper(shippingWallet: FullWallet)
    | FieldMapWrapper(fieldMap: map<ServerFieldType, string>)

  /** The variant a profile wrapper reads for `t`: its own variant for
      types of its variant group, the first one otherwise. */
  function GetVariantForType(variantGroup: FieldTypeGroup, variant: nat, t: AutofillType): (v: nat)
    ensures v != 0 ==> t.group == variantGroup && v == variant
    ensures t.group == variantGroup ==> v == variant
  {
    if t.group == variantGroup then variant else 0
  }

  /** AutofillProfileWrapper::GetInfo: a card-name request is answered from
      the billing name, at the variant chosen for the type asked. */
  function ProfileInfo(profile: ProfileSource, variantGroup: FieldTypeGroup, variant: nat, t: AutofillType)
    : string
  {
    var effective := if t.storableType == CreditCardName then TypeOf(NameBillingFull) else t;
    profile(effective, GetVariantForType(variantGroup, variant, effective))
  }

  /** The value a wrapper gives for a field type. */
  function GetInfo(w: Wrapper, t: AutofillType): (r: string)
    // The empty wrapper knows nothing.
    ensures w.EmptyDataModelWrapper? ==> r == []
    // Shipping addresses and Wallet addresses and instruments carry no
    // e-mail address.
    ensures t.storableType == EmailAddress
            && (w.AutofillShippingAddressWrapper? || w.WalletAddressWrapper? || w.WalletInstrumentWrapper?)
            ==> r == []
    // A local card answers only card types.
    ensures w.AutofillCreditCardWrapper? && t.group != CreditCard ==> r == []
    // The expiration month always comes formatted by the month combobox.
    ensures t.storableType == CreditCardExpMonth && w.AutofillCreditCardWrapper? && t.group == CreditCard
            ==> r == w.card.formattedExpirationMonth
    ensures t.storableType == CreditCardExpMonth && w.WalletInstrumentWrapper?
            ==> r == w.instrument.formattedExpirationMonth
    ensures t.storableType == CreditCardExpMonth && w.FullWalletBillingWrapper?
            ==> r == w.billingWallet.card.formattedExpirationMonth
    // A field map answers by server type, with "" for an unmapped type.
    ensures w.FieldMapWrapper? && t.serverType !in w.fieldMap ==> r == []
  {
    match w
    case EmptyDataModelWrapper => []
    case AutofillProfileWrapper(profile, variantGroup, variant) =>
      ProfileInfo(profile, variantGroup, variant, t)
    case AutofillShippingAddressWrapper(profile) =>
      // Built with the one-argument profile constructor: no variant group.
      if t.storableType == EmailAddress then [] else ProfileInfo(profile, NoGroup, 0, t)
    case AutofillCreditCardWrapper(card) =>
      if t.group != CreditCard then []
      else if t.storableType == CreditCardExpMonth then card.formattedExpirationMonth
      else card.info(t)
    case WalletAddressWrapper(address) =>
      if t.storableType == EmailAddress then [] else address(t)
    case WalletInstrumentWrapper(instrument) =>
      if t.storableType == EmailAddress then []
      else if t.storableType == CreditCardExpMonth then instrument.formattedExpirationMonth
      else instrument.info(t)
    case FullWalletBillingWrapper(wallet) =>
      if t.storableType == CreditCardExpMonth then wallet.card.formattedExpirationMonth
      else if t.group == CreditCard then wallet.card.info(t)
      else wallet.billingAddress(t)
    case FullWalletShippingWrapper(wallet) =>
      wallet.shippingAddress(t)
    case FieldMapWrapper(fieldMap) =>
      if t.serverType in fieldMap then fieldMap[t.serverType] else []
  }

  /** A profile wrapper answers a card-name request exactly as it answers
      a billing-name request. */
  lemma ProfileAnswersCardNameFromBillingName(profile: ProfileSource, variantGroup: FieldTypeGroup,
                                              variant: nat, t: AutofillType)
    requires t.storableType == CreditCardName
    ensures var w := AutofillProfileWrapper(profile, variantGroup, variant);
      GetInfo(w, t) == GetInfo(w, TypeOf(NameBillingFull))
      && GetInfo(w, t) == profile(TypeOf(NameBillingFull), if variantGroup == NameBilling then variant else 0)
  {
  }

  /** The chosen variant matters only within the variant group: for any
      other type a profile wrapper reads the first variant. */
  lemma VariantOnlyWithinItsGroup(profile: ProfileSource, variantGroup: FieldTypeGroup, variant: nat,
                                  t: AutofillType)
    requires t.storableType != CreditCardName && t.group != variantGroup
    ensures GetInfo(AutofillProfileWrapper(profile, variantGroup, variant), t) == profile(t, 0)
    ensures GetInfo(AutofillProfileWrapper(profile, variantGroup, variant), t)
         == GetInfo(AutofillProfileWrapper(profile, variantGroup, 0), t)
  {
  }

  /** A shipping-address wrapper is a plain profile wrapper that withholds
      the e-mail address. */
  lemma ShippingIsProfileWithoutEmail(profile: ProfileSource, t: AutofillType)
    ensures t.storableType != EmailAddress ==>
      GetInfo(AutofillShippingAddressWrapper(profile), t) == GetInfo(AutofillProfileWrapper(profile, NoGroup, 0), t)
    ensures t.storableType == EmailAddress ==> GetInfo(AutofillShippingAddressWrapper(profile), t) == []
  {
  }

  /** A field map gives back what was stored under a server type, and
      storing under one type changes no other type's answer. */
  lemma FieldMapRoundTrip(fieldMap: map<ServerFieldType, string>, key: ServerFieldType, value: string,
                          t: AutofillType)
    ensures GetInfo(FieldMapWrapper(fieldMap[key := value]), TypeOf(key)) == value
    ensures t.serverType != key ==>
      GetInfo(FieldMapWrapper(fieldMap[key := value]), t) == GetInfo(FieldMapWrapper(fieldMap), t)
  {
  }

  /** One of the dialog's inputs: the type it asks for and the value it
      starts with. */
  datatype DetailInput = DetailInput(fieldType: ServerFieldType, initialValue: string)

  /** The initial value FillInputs gives an input of type `t`: a non-empty
      hard-coded value for the type wins over the wrapper's answer. */
  function InitialValue(w: Wrapper, t: ServerFieldType, hardcoded: ServerFieldType -> string): (v: string)
    ensures hardcoded(t) != [] ==> v == hardcoded(t)
    ensures hardcoded(t) == [] ==> v == GetInfo(w, TypeOf(t))
  {
    if hardcoded(t) != [] then hardcoded(t) else GetInfo(w, TypeOf(t))
  }

  /** The empty wrapper fills in only the hard-coded values. */
  lemma EmptyWrapperFillsOnlyHardcoded(t: ServerFieldType, hardcoded: ServerFieldType -> string)
    ensures InitialValue(EmptyDataModelWrapper, t, hardcoded) == hardcoded(t)
  {
  }

  /** DataModelWrapper::FillInputs: every input gets its initial value; its
      type is kept. `hardcoded` is common::GetHardcodedValueForType. */
  method FillInputs(w: Wrapper, inputs: array<DetailInput>, hardcoded: ServerFieldType -> string)
    modifies inputs
    ensures forall k :: 0 <= k < inputs.Length ==>
      inputs[k] == old(inputs[k]).(initialValue := InitialValue(w, old(inputs[k]).fieldType, hardcoded))
  {
    var i := 0;
    while i < inputs.Length
      invariant 0 <= i <= inputs.Length
      invariant forall k :: 0 <= k < i ==>
        inputs[k] == old(inputs[k]).(initialValue := InitialValue(w, old(inputs[k]).fieldType, hardcoded))
      invariant forall k :: i <= k < inputs.Length ==> inputs[k] == old(inputs[k])
    {
      var input := inputs[i];
      var value := hardcoded(input.fieldType);
      if value == [] {
        value := GetInfo(w, TypeOf(input.fieldType));
      }
      inputs[i] := input.(initialValue := value);
      i := i + 1;
    }
  }

  /** A field of the web form being filled. */
  datatype AutofillField = AutofillField(fieldType: AutofillType, value: string)

  /** The comparator says some input stands for this field. */
  predicate Matches(inputs: seq<DetailInput>, compare: (ServerFieldType, AutofillField) -> bool,
                    field: AutofillField)
  {
    exists j :: 0 <= j < |inputs| && compare(inputs[j].fieldType, field)
  }

  /** One field after filling: a matched field gets the wrapper's value for
      its own type (`fill` is AutofillField::FillFormField); any other is
      left alone. */
  function FillField(w: Wrapper, inputs: seq<DetailInput>, compare: (ServerFieldType, AutofillField) -> bool,
                     fill: (AutofillField, string) -> AutofillField, field: AutofillField): AutofillField
  {
    if Matches(inputs, compare, field) then fill(field, GetInfo(w, field.fieldType)) else field
  }

  /** `f` applied to every field, in order. */
  function MapFields(f: AutofillField -> AutofillField, fields: seq<AutofillField>): (r: seq<AutofillField>)
    ensures |r| == |fields|
    ensures forall k :: 0 <= k < |fields| ==> r[k] == f(fields[k])
  {
    if fields == [] then [] else [f(fields[0])] + MapFields(f, fields[1..])
  }

  /** Mapping works field by field. */
  lemma MapFieldsAppend(f: AutofillField -> AutofillField, a: seq<AutofillField>, b: seq<AutofillField>)
    ensures MapFields(f, a + b) == MapFields(f, a) + MapFields(f, b)
  {
    var whole := MapFields(f, a + b);
    var halves := MapFields(f, a) + MapFields(f, b);
    forall k | 0 <= k < |a + b|
      ensures whole[k] == halves[k]
    {
      if k < |a| {
        assert (a + b)[k] == a[k];
      } else {
        assert (a + b)[k] == b[k - |a|];
      }
    }
  }

  /** FillField as a function of the field alone. */
  function Filler(w: Wrapper, inputs: seq<DetailInput>, compare: (ServerFieldType, AutofillField) -> bool,
                  fill: (AutofillField, string) -> AutofillField): AutofillField -> AutofillField
  {
    field => FillField(w, inputs, compare, fill, field)
  }

  /** The whole form after filling, field by field. */
  function FilledForm(w: Wrapper, inputs: seq<DetailInput>, compare: (ServerFieldType, AutofillField) -> bool,
                      fill: (AutofillField, string) -> AutofillField, fields: seq<AutofillField>)
    : (r: seq<AutofillField>)
    ensures |r| == |fields|
    ensures forall k :: 0 <= k < |fields| ==> r[k] == FillField(w, inputs, compare, fill, fields[k])
  {
    MapFields(Filler(w, inputs, compare, fill), fields)
  }

  /** A matched field is filled with the wrapper's value for its own type;
      an unmatched one is left alone. */
  lemma FilledFormFields(w: Wrapper, inputs: seq<DetailInput>, compare: (ServerFieldType, AutofillField) -> bool,
                         fill: (AutofillField, string) -> AutofillField, fields: seq<AutofillField>)
    ensures forall k :: 0 <= k < |fields| && Matches(inputs, compare, fields[k]) ==>
      FilledForm(w, inputs, compare, fill, fields)[k] == fill(fields[k], GetInfo(w, fields[k].fieldType))
    ensures forall k :: 0 <= k < |fields| && !Matches(inputs, compare, fields[k]) ==>
      FilledForm(w, inputs, compare, fill, fields)[k] == fields[k]
  {
  }

  /** Some field of the form matches some input. */
  function AnyMatch(inputs: seq<DetailInput>, compare: (ServerFieldType, AutofillField) -> bool,
                    fields: seq<AutofillField>): (b: bool)
    ensures b <==> exists k :: 0 <= k < |fields| && Matches(inputs, compare, fields[k])
  {
    if fields == [] then false
    else if Matches(inputs, compare, fields[0]) then true
    else
      var rest := AnyMatch(inputs, compare, fields[1..]);
      assert forall k :: 1 <= k < |fields| ==> fields[k] == fields[1..][k - 1];
      rest
  }

  /** Filling works field by field: a form split in two fills as its two
      halves do. */
  lemma FilledFormAppend(w: Wrapper, inputs: seq<DetailInput>,
                          compare: (ServerFieldType, AutofillField) -> bool,
                          fill: (AutofillField, string) -> AutofillField,
                          a: seq<AutofillField>, b: seq<AutofillField>)
    ensures FilledForm(w, inputs, compare, fill, a + b)
         == FilledForm(w, inputs, compare, fill, a) + FilledForm(w, inputs, compare, fill, b)
  {
    MapFieldsAppend(Filler(w, inputs, compare, fill), a, b);
  }

  /** With no inputs nothing matches: the form is untouched and nothing is
      reported filled. */
  lemma NoInputsFillNothing(w: Wrapper, compare: (ServerFieldType, AutofillField) -> bool,
                            fill: (AutofillField, string) -> AutofillField, fields: seq<AutofillField>)
    ensures FilledForm(w, [], compare, fill, fields) == fields
    ensures !AnyMatch([], compare, fields)
  {
  }

  /** The inner loop of FillFormStructure: whether some input, scanned in
      order up to the first match, stands for the field. */
  method FindMatchingInput(inputs: seq<DetailInput>, compare: (ServerFieldType, AutofillField) -> bool,
                           field: AutofillField) returns (found: bool)
    ensures found <==> Matches(inputs, compare, field)
  {
    var j := 0;
    while j < |inputs|
      invariant 0 <= j <= |inputs|
      invariant forall m :: 0 <= m < j ==> !compare(inputs[m].fieldType, field)
    {
      if compare(inputs[j].fieldType, field) {
        return true;
      }
      j := j + 1;
    }
    return false;
  }

  /** DataModelWrapper::FillFormStructure: each field is filled at most
      once, at the first input that matches it, and the result says
      whether any field was. */
  method FillFormStructure(w: Wrapper, inputs: seq<DetailInput>,
                           compare: (ServerFieldType, AutofillField) -> bool,
                           fill: (AutofillField, string) -> AutofillField,
                           form: array<AutofillField>) returns (filledSomething: bool)
    modifies form
    ensures form[..] == FilledForm(w, inputs, compare, fill, old(form[..]))
    ensures filledSomething == AnyMatch(inputs, compare, old(form[..]))
  {
    ghost var before := form[..];
    filledSomething := false;
    var i := 0;
    while i < form.Length
      invariant 0 <= i <= form.Length && |before| == form.Length
      invariant forall k :: 0 <= k < i ==> form[k] == FillField(w, inputs, compare, fill, before[k])
      invariant forall k :: i <= k < form.Length ==> form[k] == before[k]
      invariant filledSomething <==> exists k :: 0 <= k < i && Matches(inputs, compare, before[k])
    {
      var field := form[i];
      var matched := FindMatchingInput(inputs, compare, field);
      if matched {
        form[i] := fill(field, GetInfo(w, field.fieldType));
        filledSomething := true;
      }
      i := i + 1;
    }
    assert forall k :: 0 <= k < form.Length ==> form[k] == FillField(w, inputs, compare, fill, before[k]);
  }
}

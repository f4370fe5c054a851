/**
  The customer profile page: loading a profile, editing its fields and its
  list of contact numbers, and the body sent by `PUT /updateCustomer`.
 */
module CustomerProfile {
  import opened Seqs

  datatype Customer = Customer(
    customerId: string,
    nationalId: string,
    name: string,
    email: string,
    courierAddress: string,
    contactNumbers: seq<string>)

  /** `xs.filter((_, i) => i !== index)`: the list without the entry at position `index`, if there is one. */
  function WithoutPosition(xs: seq<string>, index: int): (r: seq<string>)
    ensures 0 <= index < |xs| ==> r == xs[..index] + xs[index + 1..]
    ensures !(0 <= index < |xs|) ==> r == xs
    decreases |xs|
  {
    if |xs| == 0 then []
    else
      var rest := WithoutPosition(xs[1..], index - 1);
      if index == 0 then rest
      else
        assert 0 < index < |xs| ==> xs[1..][..index - 1] == xs[1..index];
        assert 0 < index < |xs| ==> [xs[0]] + xs[1..index] == xs[..index];
        assert !(0 <= index < |xs|) ==> [xs[0]] + xs[1..] == xs;
        [xs[0]] + rest
  }

  /** `addContactNumber`: one empty entry appended after the existing ones. */
  function AddContactNumber(c: Customer): (r: Customer)
    ensures |r.contactNumbers| == |c.contactNumbers| + 1
    ensures r.contactNumbers[..|c.contactNumbers|] == c.contactNumbers
    ensures r.contactNumbers[|c.contactNumbers|] == ""
    ensures r == c.(contactNumbers := r.contactNumbers)
  {
    c.(contactNumbers := c.contactNumbers + [""])
  }

  /**
    `removeContactNumber(index)`: the entry at `index` is dropped, the
    others keep their order; a list that would become empty is replaced
    by a single empty entry.
   */
  function RemoveContactNumber(c: Customer, index: int): (r: Customer)
    ensures |r.contactNumbers| > 0
    ensures 0 <= index < |c.contactNumbers| && |c.contactNumbers| > 1 ==>
              r.contactNumbers == c.contactNumbers[..index] + c.contactNumbers[index + 1..]
    ensures 0 <= index < |c.contactNumbers| && |c.contactNumbers| == 1 ==> r.contactNumbers == [""]
    ensures !(0 <= index < |c.contactNumbers|) && |c.contactNumbers| > 0 ==> r.contactNumbers == c.contactNumbers
    ensures r == c.(contactNumbers := r.contactNumbers)
  {
    var kept := WithoutPosition(c.contactNumbers, index);
    c.(contactNumbers := if |kept| > 0 then kept else [""])
  }

  /** Adding an entry and then removing it gives back the profile. */
  lemma RemoveUndoesAdd(c: Customer)
    requires |c.contactNumbers| > 0
    ensures RemoveContactNumber(AddContactNumber(c), |c.contactNumbers|) == c
  {
    var added := AddContactNumber(c).contactNumbers;
    assert added[..|c.contactNumbers|] + added[|c.contactNumbers| + 1..] == c.contactNumbers;
  }

  /** The text inputs wired to `handleInputChange` without an index. */
  datatype TextField = NationalIdField | NameField | EmailField | CourierAddressField

  function FieldText(c: Customer, f: TextField): string
  {
    match f
    case NationalIdField => c.nationalId
    case NameField => c.name
    case EmailField => c.email
    case CourierAddressField => c.courierAddress
  }

  /** An edit event: a named text input, or the contact-number input at a position of the list. */
  datatype Edit = FieldEdit(field: TextField, value: string) | ContactEdit(index: nat, value: string)

  /**
    `handleInputChange(e, index)`. Contact inputs are rendered one per
    entry, so their index is a position of the list.
   */
  function HandleInputChange(c: Customer, e: Edit): (r: Customer)
    requires e.ContactEdit? ==> e.index < |c.contactNumbers|
    ensures e.FieldEdit? ==> FieldText(r, e.field) == e.value
    ensures e.FieldEdit? ==> forall f: TextField :: f != e.field ==> FieldText(r, f) == FieldText(c, f)
    ensures e.FieldEdit? ==> r.contactNumbers == c.contactNumbers && r.customerId == c.customerId
    ensures e.ContactEdit? ==> |r.contactNumbers| == |c.contactNumbers|
    ensures e.ContactEdit? ==> r.contactNumbers[e.index] == e.value
    ensures e.ContactEdit? ==> forall i :: 0 <= i < |c.contactNumbers| && i != e.index ==>
              r.contactNumbers[i] == c.contactNumbers[i]
    ensures e.ContactEdit? ==> r == c.(contactNumbers := r.contactNumbers)
  {
    match e
    case ContactEdit(index, value) => c.(contactNumbers := c.contactNumbers[index := value])
    case FieldEdit(field, value) =>
      match field
      case NationalIdField => c.(nationalId := value)
      case NameField => c.(name := value)
      case EmailField => c.(email := value)
      case CourierAddressField => c.(courierAddress := value)
  }

  /** No edit, add or remove empties a non-empty contact list. */
  lemma EditsKeepContactsNonEmpty(c: Customer, e: Edit, index: int)
    requires |c.contactNumbers| > 0
    requires e.ContactEdit? ==> e.index < |c.contactNumbers|
    ensures |HandleInputChange(c, e).contactNumbers| > 0
    ensures |AddContactNumber(c).contactNumbers| > 0
    ensures |RemoveContactNumber(c, index).contactNumbers| > 0
  {
  }

  function NotBlank(n: string): bool
  {
    n != ""
  }

  /** The body of `PUT /updateCustomer`: empty contact entries dropped, order and every other field kept. */
  function SubmitPayload(c: Customer): (r: Customer)
    ensures forall n :: n in r.contactNumbers <==> n in c.contactNumbers && n != ""
    ensures "" !in r.contactNumbers
    ensures forall n :: n != "" ==> multiset(r.contactNumbers)[n] == multiset(c.contactNumbers)[n]
    ensures SubseqOf(r.contactNumbers, c.contactNumbers)
    ensures r == c.(contactNumbers := r.contactNumbers)
  {
    c.(contactNumbers := Filter(c.contactNumbers, NotBlank))
  }

  /** Submitting is stable: a payload is its own payload. */
  lemma SubmitIdempotent(c: Customer)
    ensures SubmitPayload(SubmitPayload(c)) == SubmitPayload(c)
  {
    FilterAll(SubmitPayload(c).contactNumbers, NotBlank);
  }

  /** An added entry left empty does not reach the server. */
  lemma SubmitIgnoresAddedBlank(c: Customer)
    ensures SubmitPayload(AddContactNumber(c)) == SubmitPayload(c)
  {
    FilterAppend(c.contactNumbers, [""], NotBlank);
  }

  /** The payload can carry no contact number at all: the page does not enforce one. */
  lemma SubmitMayBeEmpty(c: Customer)
    requires c.contactNumbers == [""]
    ensures SubmitPayload(c).contactNumbers == []
  {
  }

  // ---------------------------------------------------------------------
  // Loading

  /** A profile as the server sends it; `contactNumbers` may be missing. */
  datatype RawCustomer = RawCustomer(
    customerId: string,
    nationalId: string,
    name: string,
    email: string,
    courierAddress: string,
    contactNumbers: Option<seq<string>>)

  /** What `GET /customerProfile/{id}` produced: a failed request, or a body that may be empty. */
  datatype ProfileResponse = ProfileRequestFailed | ProfileBody(data: Option<RawCustomer>)

  datatype ProfilePage = Failed(message: string) | Loaded(customer: Customer)

  /** `fetchCustomerProfile`: a profile is taken only when it has a contact-number list. */
  function LoadProfile(resp: ProfileResponse): (p: ProfilePage)
    ensures p.Loaded? <==> resp.ProfileBody? && resp.data.Some? && resp.data.value.contactNumbers.Some?
    ensures p.Loaded? ==>
              && p.customer.contactNumbers == resp.data.value.contactNumbers.value
              && p.customer.customerId == resp.data.value.customerId
              && p.customer.name == resp.data.value.name
              && p.customer.nationalId == resp.data.value.nationalId
              && p.customer.email == resp.data.value.email
              && p.customer.courierAddress == resp.data.value.courierAddress
    ensures resp == ProfileRequestFailed ==> p == Failed("Failed to load customer profile. Please try again.")
    ensures resp.ProfileBody? && !p.Loaded? ==> p == Failed("Invalid customer data received. Please try again.")
  {
    match resp
    case ProfileRequestFailed => Failed("Failed to load customer profile. Please try again.")
    case ProfileBody(data) =>
      if data.Some? && data.value.contactNumbers.Some? then
        var d := data.value;
        Loaded(Customer(d.customerId, d.nationalId, d.name, d.email, d.courierAddress, d.contactNumbers.value))
      else
        Failed("Invalid customer data received. Please try again.")
  }

  /**
    Loading and then saving without edits sends back every field as the
    server gave it, and its contact numbers minus the empty entries, in
    order; a profile with no empty entry goes back exactly as received.
   */
  lemma LoadThenSubmit(resp: ProfileResponse)
    requires LoadProfile(resp).Loaded?
    ensures var d := resp.data.value;
            var sent := SubmitPayload(LoadProfile(resp).customer);
            && sent.customerId == d.customerId && sent.nationalId == d.nationalId && sent.name == d.name
            && sent.email == d.email && sent.courierAddress == d.courierAddress
            && (forall n :: n in sent.contactNumbers <==> n in d.contactNumbers.value && n != "")
            && SubseqOf(sent.contactNumbers, d.contactNumbers.value)
            && ("" !in d.contactNumbers.value ==> sent.contactNumbers == d.contactNumbers.value)
  {
    var contacts := resp.data.value.contactNumbers.value;
    if "" !in contacts {
      FilterAll(contacts, NotBlank);
    }
  }

  /** An empty list is still a list: a profile with no contact numbers loads, so the list can start empty. */
  lemma EmptyContactListLoads(d: RawCustomer)
    requires d.contactNumbers == Some([])
    ensures LoadProfile(ProfileBody(Some(d))).Loaded?
    ensures LoadProfile(ProfileBody(Some(d))).customer.contactNumbers == []
  {
  }
}

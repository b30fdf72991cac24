/** CustomerForm (finalpro/productinfo/forms.py): a ModelForm over every
    Customer field whose clean_* methods strip surrounding whitespace from
    the first name, last name, disambiguator, username and password with
    Python's str.strip(). */
module Forms {
  import opened Wrappers
  import opened Schema

  /** The characters for which Python's str.isspace() holds, i.e. those
      str.strip() with no argument removes: \t \n \v \f \r, the four
      information separators U+001C..U+001F, the space, U+0085, U+00A0,
      U+1680, U+2000..U+200A, U+2028, U+2029, U+202F, U+205F and U+3000. */
  const Whitespace: set<char> :=
    {'\t', '\n', '\U{0B}', '\U{0C}', '\r', '\U{1C}', '\U{1D}', '\U{1E}', '\U{1F}', ' ',
     '\U{85}', '\U{A0}', '\U{1680}',
     '\U{2000}', '\U{2001}', '\U{2002}', '\U{2003}', '\U{2004}', '\U{2005}',
     '\U{2006}', '\U{2007}', '\U{2008}', '\U{2009}', '\U{200A}',
     '\U{2028}', '\U{2029}', '\U{202F}', '\U{205F}', '\U{3000}'}

  predicate IsSpace(c: char) {
    c in Whitespace
  }

  predicate AllSpace(s: string) {
    forall k :: 0 <= k < |s| ==> IsSpace(s[k])
  }

  /** Neither end of s is whitespace. */
  predicate Trimmed(s: string) {
    s == [] || (!IsSpace(s[0]) && !IsSpace(s[|s| - 1]))
  }

  /** The first index at or after i that does not hold whitespace (|s| if
      there is none): Python's left scan over s. */
  function StartIndex(s: string, i: nat): (k: nat)
    requires i <= |s|
    ensures i <= k <= |s|
    ensures forall m :: i <= m < k ==> IsSpace(s[m])
    ensures k < |s| ==> !IsSpace(s[k])
    decreases |s| - i
  {
    if i < |s| && IsSpace(s[i]) then StartIndex(s, i + 1) else i
  }

  /** The end of s[lo..j] once its trailing whitespace is dropped: Python's
      right scan, which stops at lo. */
  function EndIndex(s: string, lo: nat, j: nat): (e: nat)
    requires lo <= j <= |s|
    ensures lo <= e <= j
    ensures forall m :: e <= m < j ==> IsSpace(s[m])
    ensures e > lo ==> !IsSpace(s[e - 1])
    decreases j
  {
    if j > lo && IsSpace(s[j - 1]) then EndIndex(s, lo, j - 1) else j
  }

  /** r is what str.strip() leaves of s: the part of s from its first
      non-whitespace character on, with only whitespace before and after it
      in s and no whitespace at either of its own ends. */
  predicate StrippedFrom(s: string, r: string) {
    && Trimmed(r)
    && var i := StartIndex(s, 0);
       && i + |r| <= |s| && r == s[i..i + |r|]
       && (forall m :: 0 <= m < i ==> IsSpace(s[m]))
       && (forall m :: i + |r| <= m < |s| ==> IsSpace(s[m]))
  }

  /** Python's s.strip(). */
  function Strip(s: string): (r: string)
    ensures StrippedFrom(s, r)
  {
    var i := StartIndex(s, 0);
    var j := EndIndex(s, i, |s|);
    s[i..j]
  }

  /** The left scan stops exactly at the first non-whitespace index. */
  lemma {:induction false} StartIndexAt(s: string, i: nat, k: nat)
    requires i <= k <= |s|
    requires forall m :: i <= m < k ==> IsSpace(s[m])
    requires k < |s| ==> !IsSpace(s[k])
    ensures StartIndex(s, i) == k
    decreases k - i
  {
    if i < k {
      StartIndexAt(s, i + 1, k);
    }
  }

  /** The right scan stops exactly after the last non-whitespace index. */
  lemma {:induction false} EndIndexAt(s: string, lo: nat, j: nat, e: nat)
    requires lo <= e <= j <= |s|
    requires forall m :: e <= m < j ==> IsSpace(s[m])
    requires e > lo ==> !IsSpace(s[e - 1])
    ensures EndIndex(s, lo, j) == e
    decreases j
  {
    if e < j {
      EndIndexAt(s, lo, j - 1, e);
    }
  }

  /** Stripping a padded value gives back exactly the value: whatever
      whitespace surrounds a Trimmed t, Strip removes all of it and nothing
      of t. */
  lemma {:induction false} StripOfPadded(a: string, t: string, b: string)
    requires AllSpace(a) && AllSpace(b) && Trimmed(t)
    ensures Strip(a + t + b) == t
  {
    var s := a + t + b;
    var i := if t == [] then |s| else |a|;
    forall m | 0 <= m < i ensures IsSpace(s[m]) {
      if m < |a| { assert s[m] == a[m]; } else { assert s[m] == b[m - |a|]; }
    }
    if t != [] { assert s[|a|] == t[0]; }
    StartIndexAt(s, 0, i);
    var e := if t == [] then |s| else |a| + |t|;
    forall m | e <= m < |s| ensures IsSpace(s[m]) {
      assert s[m] == b[m - |a| - |t|];
    }
    if t != [] { assert s[e - 1] == t[|t| - 1]; }
    EndIndexAt(s, i, |s|, e);
    assert s[i..e] == t;
  }

  /** Stripping is idempotent. */
  lemma StripIdempotent(s: string)
    ensures Strip(Strip(s)) == Strip(s)
  {
    var r := Strip(s);
    StripOfPadded([], r, []);
    assert [] + r + [] == r;
  }

  /** Only an all-whitespace value strips to the empty string. */
  lemma StripEmptyIffAllSpace(s: string)
    ensures Strip(s) == [] <==> AllSpace(s)
  {
    if AllSpace(s) {
      StripOfPadded(s, [], []);
      assert s + [] + [] == s;
    }
  }

  /** Every value is its stripped form with whitespace around it. */
  lemma StripDecomposes(t: string) returns (x: string, y: string)
    ensures AllSpace(x) && AllSpace(y) && t == x + Strip(t) + y
  {
    var r := Strip(t);
    var i := StartIndex(t, 0);
    var j := i + |r|;
    x, y := t[..i], t[j..];
    assert t == t[..i] + t[i..j] + t[j..];
  }

  lemma AllSpaceConcat(x: string, y: string)
    requires AllSpace(x) && AllSpace(y)
    ensures AllSpace(x + y)
  {
  }

  /** Surrounding whitespace does not survive stripping. */
  lemma {:induction false} StripIgnoresPadding(a: string, t: string, b: string)
    requires AllSpace(a) && AllSpace(b)
    ensures Strip(a + t + b) == Strip(t)
  {
    var x, y := StripDecomposes(t);
    var r := Strip(t);
    AllSpaceConcat(a, x);
    AllSpaceConcat(y, b);
    Regroup(a, x, r, y, b);
    StripOfPadded(a + x, r, y + b);
  }

  lemma Regroup(a: string, x: string, r: string, y: string, b: string)
    ensures a + (x + r + y) + b == (a + x) + r + (y + b)
  {
    assert a + (x + r + y) + b == a + x + r + y + b;
  }

  lemma StripExample()
    ensures Strip("  Ann  ") == "Ann"
  {
    StripOfPadded("  ", "Ann", "  ");
    assert "  " + "Ann" + "  " == "  Ann  ";
  }

  // ---------------------------------------------------------------------
  // The clean_* methods

  /** clean_first_name, clean_last_name, clean_username and clean_password:
      each returns the submitted value with its surrounding whitespace
      removed. */
  function CleanFirstName(v: string): (r: string)
    ensures StrippedFrom(v, r)
  {
    Strip(v)
  }

  function CleanLastName(v: string): (r: string)
    ensures StrippedFrom(v, r)
  {
    Strip(v)
  }

  function CleanUsername(v: string): (r: string)
    ensures StrippedFrom(v, r)
  {
    Strip(v)
  }

  function CleanPassword(v: string): (r: string)
    ensures StrippedFrom(v, r)
  {
    Strip(v)
  }

  /** An empty disambiguator is returned as it is, any other is stripped;
      either way the result is the stripped input. */
  function CleanDisambiguator(v: string): (r: string)
    ensures r == Strip(v)
  {
    if |v| == 0 then v else Strip(v)
  }

  /** cleaned_data after the form's own clean_* methods have run. */
  function CleanCustomer(c: Customer): (r: Customer)
    ensures r.firstName == Strip(c.firstName) && r.lastName == Strip(c.lastName)
    ensures r.disambiguator == Strip(c.disambiguator)
    ensures r.username == Strip(c.username) && r.password == Strip(c.password)
    ensures r.email == c.email
    ensures r.shippingMethod == c.shippingMethod && r.paymentMethod == c.paymentMethod
  {
    c.(firstName := CleanFirstName(c.firstName),
       lastName := CleanLastName(c.lastName),
       disambiguator := CleanDisambiguator(c.disambiguator),
       username := CleanUsername(c.username),
       password := CleanPassword(c.password))
  }

  /** Cleaning an already cleaned submission changes nothing. */
  lemma CleanCustomerIdempotent(c: Customer)
    ensures CleanCustomer(CleanCustomer(c)) == CleanCustomer(c)
  {
    StripIdempotent(c.firstName);
    StripIdempotent(c.lastName);
    StripIdempotent(c.disambiguator);
    StripIdempotent(c.username);
    StripIdempotent(c.password);
  }

  /** CustomerForm.is_valid() followed by save(): the cleaned customer is
      checked and stored as a Schema insert would. */
  function SubmitCustomerForm(db: Db, input: Customer): (r: Result<(Db, nat), InsertError>)
    ensures r.Ok? ==> r.value.0 == AddRow(db, CustomerRow(CleanCustomer(input)))
    ensures r.Ok? <==> Check(db, CustomerRow(CleanCustomer(input))).None?
  {
    Insert(db, CustomerRow(CleanCustomer(input)))
  }

  /** Whitespace cannot get round the (username, email, disambiguator)
      constraint: once a submission is stored, the same submission with its
      username and disambiguator padded by whitespace is refused. */
  lemma {:induction false} PaddingDoesNotEvadeUniqueness(db: Db, input: Customer, a: string, b: string)
    requires SubmitCustomerForm(db, input).Ok?
    requires AllSpace(a) && AllSpace(b)
    ensures var padded := input.(username := a + input.username + b,
                                 disambiguator := a + input.disambiguator + b);
            SubmitCustomerForm(SubmitCustomerForm(db, input).value.0, padded).Err?
  {
    var padded := input.(username := a + input.username + b, disambiguator := a + input.disambiguator + b);
    var stored := CleanCustomer(input);
    var db' := AddRow(db, CustomerRow(stored));
    var cleaned := CleanCustomer(padded);
    StripIgnoresPadding(a, input.username, b);
    StripIgnoresPadding(a, input.disambiguator, b);
    assert CustomerKey(cleaned) == CustomerKey(stored);
    var id := db.customers.next;
    assert id in db'.customers.rows && db'.customers.rows[id] == stored;
    assert Taken(db'.customers, CustomerKey, CustomerKey(cleaned));
    var row := CustomerRow(cleaned);
    assert UniqueError(db', row).Some?;
    if FieldError(row).None? && RefError(db', row).None? {
      assert Check(db', row) == Some(Duplicate(UniqueError(db', row).value));
    }
  }

  /** A customer may be created with the default (empty) disambiguator; the
      other text fields may not be left empty. */
  lemma DisambiguatorMayBeBlank(c: Customer)
    requires c.disambiguator == DefaultDisambiguator
    requires TextOk(c.firstName, ShortText, false) && TextOk(c.lastName, ShortText, false)
    requires TextOk(c.username, ShortText, false) && TextOk(c.password, ShortText, false)
    requires TextOk(c.email, LongText, false)
    ensures FieldError(CustomerRow(c)).None?
    ensures FieldError(CustomerRow(c.(username := DefaultDisambiguator))) == Some("username")
  {
    var fs := TextFields(CustomerRow(c.(username := DefaultDisambiguator)));
    assert !TextOk(fs[3].value, fs[3].maxLength, fs[3].blank);
    assert forall i :: 0 <= i < |fs| && i != 3 ==> TextOk(fs[i].value, fs[i].maxLength, fs[i].blank);
  }
}

/** A person: a UUID, a name, an address and an append-only list of emails. The name
    and address are null (`None`) only for the placeholder manager the store loader
    makes up for an unknown UUID. */
module Persons {
  import opened Wrappers
  import opened Addresses
  import JavaString

  /** Java string concatenation writes a null reference as "null". */
  function Show(s: Option<string>): (r: string)
    ensures s.Some? ==> r == s.value
    ensures s.None? ==> r == "null"
  {
    match s
    case None => "null"
    case Some(v) => v
  }

  /** The email part of `toString`: a bare line break when there are none, otherwise
      the emails separated by ", " inside brackets, then a line break. */
  function EmailBlock(emails: seq<string>): string {
    if |emails| == 0 then "\n" else "[" + JavaString.Join(emails, ", ") + "]\n"
  }

  /** Each email followed by ", ", concatenated: what the `toString` loop has appended
      after its first `i` rounds. */
  function Listed(emails: seq<string>): string {
    if |emails| == 0 then "" else Listed(emails[..|emails| - 1]) + emails[|emails| - 1] + ", "
  }

  /** Listing all but the last email and then writing the last gives the joined list. */
  lemma {:induction false} ListedThenLastIsJoin(emails: seq<string>)
    requires |emails| >= 1
    ensures Listed(emails[..|emails| - 1]) + emails[|emails| - 1] == JavaString.Join(emails, ", ")
    decreases |emails|
  {
    if |emails| > 1 {
      var tail := emails[1..];
      ListedThenLastIsJoin(tail);
      assert tail[..|tail| - 1] == emails[..|emails| - 1][1..];
      ListedFront(emails[..|emails| - 1]);
      assert emails[..|emails| - 1][0] == emails[0];
      assert tail[|tail| - 1] == emails[|emails| - 1];
    }
  }

  /** `Listed` unfolded from the front. */
  lemma {:induction false} ListedFront(emails: seq<string>)
    requires |emails| >= 1
    ensures Listed(emails) == emails[0] + ", " + Listed(emails[1..])
    decreases |emails|
  {
    if |emails| > 1 {
      var init := emails[..|emails| - 1];
      ListedFront(init);
      assert init[1..] == emails[1..][..|emails[1..]| - 1];
      assert init[0] == emails[0];
      assert emails[1..][|emails[1..]| - 1] == emails[|emails| - 1];
    } else {
      assert emails[..0] == [] && emails[1..] == [];
    }
  }

  lemma ListedSnoc(emails: seq<string>, i: nat)
    requires i < |emails|
    ensures Listed(emails[..i + 1]) == Listed(emails[..i]) + emails[i] + ", "
  {
    assert emails[..i + 1][..i] == emails[..i];
  }

  /** The email part of `toString`, built the way the source builds it: one email on
      its own, or all but the last each followed by ", " and then the last. */
  method EmailsToString(emails: seq<string>) returns (s: string)
    ensures s == EmailBlock(emails)
  {
    var n := |emails|;
    if n == 1 {
      s := "[" + emails[0] + "]\n";
    } else if n > 1 {
      // what the loop appends after the opening bracket
      var listed := "";
      var i := 0;
      while i < n - 1
        invariant 0 <= i <= n - 1
        invariant listed == Listed(emails[..i])
      {
        ListedSnoc(emails, i);
        listed := listed + emails[i] + ", ";
        i := i + 1;
      }
      ListedThenLastIsJoin(emails);
      var joined := listed + emails[n - 1];
      s := "[" + joined + "]\n";
    } else {
      s := "\n";
    }
  }

  class Person {
    const uuid: string
    const lastName: Option<string>
    const firstName: Option<string>
    const address: Option<Address>
    var emails: seq<string>

    constructor (uuid: string, lastName: Option<string>, firstName: Option<string>, address: Option<Address>)
      ensures this.uuid == uuid && this.lastName == lastName && this.firstName == firstName
      ensures this.address == address
      ensures emails == []
    {
      this.uuid := uuid;
      this.lastName := lastName;
      this.firstName := firstName;
      this.address := address;
      this.emails := [];
    }

    /** `lastName + ", " + firstName`. */
    function NameToString(): string {
      Show(lastName) + ", " + Show(firstName)
    }

    /** What `toString` returns: the name and UUID, the email block, then the address. */
    function Text(): string
      reads this
      requires address.Some?
    {
      NameToString() + " (" + uuid + ")\n\t" + EmailBlock(emails) + address.value.ToString()
    }

    /** `toString`: the header, the email part, then the address. A person without
        an address (the loader's placeholder manager) throws `NullPointerException`
        (`None`) when the address is read. */
    method ToString() returns (s: Option<string>)
      ensures s.Some? <==> address.Some?
      ensures s.Some? ==> s.value == Text()
    {
      var text := NameToString() + " (" + uuid + ")\n\t";
      var block := EmailsToString(emails);
      text := text + block;
      if address.None? {
        return None;
      }
      s := Some(text + address.value.ToString());
    }

    method AddEmail(email: string)
      modifies this
      ensures emails == old(emails) + [email]
    {
      emails := emails + [email];
    }
  }

  /** The text starts with the name and UUID header and ends with the address. */
  lemma TextFraming(p: Person)
    requires p.address.Some?
    ensures var header := p.NameToString() + " (" + p.uuid + ")\n\t";
            |header| <= |p.Text()| && p.Text()[..|header|] == header
    ensures var tail := p.address.value.ToString();
            |tail| <= |p.Text()| && p.Text()[|p.Text()| - |tail|..] == tail
  {
  }

  /** The email block for no emails, for one, and for several. */
  lemma EmailBlockCases(emails: seq<string>)
    ensures |emails| == 0 ==> EmailBlock(emails) == "\n"
    ensures |emails| == 1 ==> EmailBlock(emails) == "[" + emails[0] + "]\n"
    ensures |emails| >= 2 ==> EmailBlock(emails) == "[" + emails[0] + ", " + JavaString.Join(emails[1..], ", ") + "]\n"
  {
  }

  /** The last name is the text of `nameToString` before its first comma, when the
      last name holds no comma itself. */
  lemma {:induction false} NameToStringStartsWithLastName(p: Person)
    requires p.lastName.Some? && ',' !in p.lastName.value
    ensures BeforeComma(p.NameToString()) == p.lastName.value
  {
    BeforeCommaOfPrefix(p.lastName.value, ", " + Show(p.firstName));
    assert p.NameToString() == p.lastName.value + (", " + Show(p.firstName));
  }

  /** The characters of `s` before its first comma. */
  function BeforeComma(s: string): (r: string)
    ensures |r| <= |s| && r == s[..|r|] && ',' !in r
  {
    if |s| == 0 || s[0] == ',' then "" else [s[0]] + BeforeComma(s[1..])
  }

  lemma {:induction false} BeforeCommaOfPrefix(w: string, tail: string)
    requires ',' !in w && |tail| >= 1 && tail[0] == ','
    ensures BeforeComma(w + tail) == w
  {
    if |w| == 0 {
      assert w + tail == tail;
    } else {
      assert (w + tail)[1..] == w[1..] + tail;
      BeforeCommaOfPrefix(w[1..], tail);
      assert w == [w[0]] + w[1..];
    }
  }
}

/** A postal address: an immutable value of four strings. */
module Addresses {

  datatype Address = Address(street: string, city: string, state: string, zip: string) {

    /** `String.format("\t%s\n\t%s, %s %s", street, city, state, zip)`. */
    function ToString(): string {
      "\t" + street + "\n\t" + city + ", " + state + " " + zip
    }
  }

  /** Reads the street back from an address's text: everything between the leading
      tab and the first line break. */
  function StreetOf(text: string): (street: string)
    requires |text| >= 1
  {
    TakeLine(text[1..])
  }

  /** The characters of `s` before its first line break. */
  function TakeLine(s: string): (r: string)
    ensures |r| <= |s| && r == s[..|r|] && '\n' !in r
    ensures |r| < |s| ==> s[|r|] == '\n'
    ensures '\n' !in s ==> r == s
  {
    if |s| == 0 || s[0] == '\n' then ""
    else [s[0]] + TakeLine(s[1..])
  }

  /** The first line of the text starts with a tab and holds the street, so the street
      of a single-line street is recovered from the text. */
  lemma {:induction false} StreetRoundTrip(a: Address)
    requires '\n' !in a.street
    ensures |a.ToString()| >= 1 && a.ToString()[0] == '\t'
    ensures StreetOf(a.ToString()) == a.street
  {
    var tail := "\n\t" + a.city + ", " + a.state + " " + a.zip;
    var rest := a.street + tail;
    var text := a.ToString();
    assert text == "\t" + rest;
    assert text[1..] == rest;
    TakeLineOfPrefix(a.street, tail);
  }

  /** A break-free prefix followed by a line break is exactly the first line. */
  lemma {:induction false} TakeLineOfPrefix(line: string, tail: string)
    requires '\n' !in line && |tail| >= 1 && tail[0] == '\n'
    ensures TakeLine(line + tail) == line
  {
    if |line| == 0 {
      assert line + tail == tail;
    } else {
      assert (line + tail)[1..] == line[1..] + tail;
      TakeLineOfPrefix(line[1..], tail);
      assert line == [line[0]] + line[1..];
    }
  }

}

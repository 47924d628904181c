/**
 * The stored form of a signed-in user's profile. The application writes
 * the profile with `JSON.stringify` and reads it back with `JSON.parse`;
 * this model uses a length-prefixed text encoding in their place and
 * proves the one property the session store relies on: reading back what
 * was written gives the same profile.
 */
module ProfileCodec {

  import opened Wrappers
  import opened Text

  /** A user without the token. */
  datatype Profile = Profile(id: int, username: string, email: string, firstName: string, lastName: string)

  /** One text field: its length in decimal, a colon, then the text itself. */
  function EncodeField(s: string): (r: string)
    ensures |r| > |s|
  {
    NatToString(|s|) + ":" + s
  }

  /** Reads one field off the front of `s`, giving the field and what follows it. */
  function DecodeField(s: string): Option<(string, string)> {
    var (ds, rest) := SplitDigits(s);
    if ds == [] || rest == [] || rest[0] != ':' then None
    else
      var n := DigitsValue(ds);
      if |rest| - 1 < n then None else Some((rest[1..1 + n], rest[1 + n..]))
  }

  /** A field reads back as written, whatever follows it. */
  lemma DecodeEncodeField(x: string, tail: string)
    ensures DecodeField(EncodeField(x) + tail) == Some((x, tail))
  {
    var ds := NatToString(|x|);
    var rest := ":" + x + tail;
    assert EncodeField(x) + tail == ds + rest;
    SplitDigitsOf(ds, rest);
    NatToStringValue(|x|);
    assert rest[1..1 + |x|] == x;
    assert rest[1 + |x|..] == tail;
  }

  /** The stored text of a profile: its five fields in order. */
  function Encode(p: Profile): (r: string)
    ensures r != ""
  {
    EncodeField(IntToString(p.id)) + EncodeField(p.username) + EncodeField(p.email)
      + EncodeField(p.firstName) + EncodeField(p.lastName)
  }

  /** Parses stored text back into a profile; `None` where `JSON.parse` would throw. */
  function Decode(s: string): (r: Option<Profile>)
    ensures r.Some? ==> s != ""
  {
    var f1 :- DecodeField(s);
    var id :- StringToInt(f1.0);
    var f2 :- DecodeField(f1.1);
    var f3 :- DecodeField(f2.1);
    var f4 :- DecodeField(f3.1);
    var f5 :- DecodeField(f4.1);
    if f5.1 != "" then None else Some(Profile(id, f2.0, f3.0, f4.0, f5.0))
  }

  /** Reading back a stored profile gives the profile that was stored. */
  lemma DecodeEncode(p: Profile)
    ensures Decode(Encode(p)) == Some(p)
  {
    var e1, e2, e3 := EncodeField(IntToString(p.id)), EncodeField(p.username), EncodeField(p.email);
    var e4, e5 := EncodeField(p.firstName), EncodeField(p.lastName);
    assert Encode(p) == e1 + (e2 + (e3 + (e4 + (e5 + "")))) by {
      assert e5 + "" == e5;
    }
    DecodeEncodeField(IntToString(p.id), e2 + (e3 + (e4 + (e5 + ""))));
    IntToStringRoundTrip(p.id);
    DecodeEncodeField(p.username, e3 + (e4 + (e5 + "")));
    DecodeEncodeField(p.email, e4 + (e5 + ""));
    DecodeEncodeField(p.firstName, e5 + "");
    DecodeEncodeField(p.lastName, "");
  }

  /** Distinct profiles are stored as distinct texts. */
  lemma EncodeInjective(p: Profile, q: Profile)
    requires Encode(p) == Encode(q)
    ensures p == q
  {
    DecodeEncode(p);
    DecodeEncode(q);
  }
}

/** The two enumerations of the service: delivery channels and lifecycle
    statuses, with the text forms Enum.ToString() renders and the
    case-insensitive Enum.TryParse the acceptance path uses. */
module Enums {
  import opened Common

  /** NotificationChannel: Email = 0, SMS = 1, Push = 2. A C# enum variable can
      hold any other int as well; Undeclared carries such a value. */
  datatype Channel = Email | SMS | Push | Undeclared(value: Int32)

  /** Undeclared never carries the value of a declared member. */
  predicate WellFormed(c: Channel) {
    c.Undeclared? ==> c.value < 0 || 2 < c.value
  }

  predicate IsDeclared(c: Channel) {
    !c.Undeclared?
  }

  /** The underlying int of a channel. */
  function ValueOf(c: Channel): Int32 {
    match c
    case Email => 0
    case SMS => 1
    case Push => 2
    case Undeclared(v) => v
  }

  /** The channel an int denotes: (NotificationChannel)v. */
  function FromValue(v: Int32): (c: Channel)
    ensures WellFormed(c) && ValueOf(c) == v
    ensures IsDeclared(c) <==> 0 <= v <= 2
  {
    if v == 0 then Email else if v == 1 then SMS else if v == 2 then Push else Undeclared(v)
  }

  /** A well-formed channel is determined by its value. */
  lemma FromValueOf(c: Channel)
    requires WellFormed(c)
    ensures FromValue(ValueOf(c)) == c
  {
  }

  /** The first character of text Enum.TryParse reads as a number. */
  predicate IsNumberStart(c: char) {
    IsDigit(c) || c == '+' || c == '-'
  }

  /** Enum.ToString(): the member name, or the decimal value when no member
      has it. The text has no surrounding white space; a member's name is found
      again by the case-insensitive name lookup, and an undeclared value's text
      reads back as that value. */
  function ChannelName(c: Channel): (r: string)
    ensures |r| > 0 && !IsWhiteSpace(r[0]) && !IsWhiteSpace(r[|r| - 1])
    ensures IsDeclared(c) ==> !IsNumberStart(r[0]) && ChannelByName(Upper(r)) == Some(c)
    ensures c.Undeclared? ==> IsNumberStart(r[0]) && ParseInteger(r) == Some(c.value)
  {
    match c
    case Email => assert Upper("Email") == "EMAIL"; "Email"
    case SMS => assert Upper("SMS") == "SMS"; "SMS"
    case Push => assert Upper("Push") == "PUSH"; "Push"
    case Undeclared(v) =>
      var r := IntToString(v);
      IntegerRoundTrip(v);
      assert IsDigit(r[|r| - 1]);
      r
  }

  /** Member names, compared after ASCII upper-casing (ignoreCase = true). */
  function ChannelByName(upper: string): Option<Channel> {
    if upper == "EMAIL" then Some(Email)
    else if upper == "SMS" then Some(SMS)
    else if upper == "PUSH" then Some(Push)
    else None
  }

  /** Enum.TryParse<NotificationChannel>(text, ignoreCase: true). Leading white
      space is skipped. Text that then starts with a digit or a sign is read as
      an Int32 (any value, declared or not); after the digits only ASCII white
      space may follow. Any other text, with trailing white space dropped too,
      must name a member. A number that does not read falls back to the name
      lookup, which no text starting with a digit or a sign passes. */
  function ParseChannel(text: string): (r: Option<Channel>)
    ensures r.Some? ==> WellFormed(r.value)
    ensures r.Some? ==> !IsNullOrWhiteSpace(Some(text))
  {
    ParseStripped(TrimStart(text))
  }

  /** The parse of text whose leading white space is already dropped. */
  function ParseStripped(t: string): (r: Option<Channel>)
    ensures r.Some? ==> WellFormed(r.value) && |t| > 0
    ensures r.Some? && IsNumberStart(t[0]) ==> ParseInteger(TrimEndAscii(t)) == Some(ValueOf(r.value) as int)
    ensures r.Some? && !IsNumberStart(t[0]) ==>
              IsDeclared(r.value) && Upper(TrimEnd(t)) == Upper(ChannelName(r.value))
    ensures |t| > 0 && IsNumberStart(t[0]) ==>
              (r.Some? <==> var v := ParseInteger(TrimEndAscii(t)); v.Some? && MinInt32 <= v.value <= MaxInt32)
  {
    if |t| == 0 then None
    else if IsNumberStart(t[0]) then
      match ParseInteger(TrimEndAscii(t))
      case Some(v) => if MinInt32 <= v <= MaxInt32 then Some(FromValue(v)) else None
      case None => None
    else
      MemberNamesUpper();
      ChannelByName(Upper(TrimEnd(t)))
  }

  lemma MemberNamesUpper()
    ensures Upper("Email") == "EMAIL" && Upper("SMS") == "SMS" && Upper("Push") == "PUSH"
  {
    assert Upper("Email") == "EMAIL";
    assert Upper("SMS") == "SMS";
    assert Upper("Push") == "PUSH";
  }

  /** Text that is not a number parses exactly when, trimmed and upper-cased,
      it is one of the three member names, and then to the member it names.
      Every other such text is rejected. */
  lemma ParseNameExactly(text: string)
    requires |TrimStart(text)| > 0 && !IsNumberStart(TrimStart(text)[0])
    ensures ParseChannel(text).Some? <==> Upper(Trim(text)) in {"EMAIL", "SMS", "PUSH"}
    ensures ParseChannel(text).Some? ==> Upper(Trim(text)) == Upper(ChannelName(ParseChannel(text).value))
  {
    assert Trim(text) == TrimEnd(TrimStart(text));
  }

  /** Text that is a number parses exactly when its digits, with an optional
      sign and trailing ASCII white space, read as an Int32, and then to the
      channel with that value. */
  lemma ParseNumberExactly(text: string)
    requires |TrimStart(text)| > 0 && IsNumberStart(TrimStart(text)[0])
    ensures var v := ParseInteger(TrimEndAscii(TrimStart(text)));
            ParseChannel(text).Some? <==> v.Some? && MinInt32 <= v.value <= MaxInt32
    ensures var v := ParseInteger(TrimEndAscii(TrimStart(text)));
            ParseChannel(text).Some? ==> ParseChannel(text) == Some(FromValue(v.value))
  {
    var v := ParseInteger(TrimEndAscii(TrimStart(text)));
    if ParseChannel(text).Some? {
      FromValueOf(ParseChannel(text).value);
    }
  }

  /** Parsing the rendered name of any channel gives that channel back. */
  lemma ParseChannelName(c: Channel)
    requires WellFormed(c)
    ensures ParseChannel(ChannelName(c)) == Some(c)
  {
    var name := ChannelName(c);
    assert TrimStart(name) == name;
    if IsDeclared(c) {
      assert TrimEnd(name) == name;
    } else {
      assert TrimEndAscii(name) == name;
    }
  }

  /** Two channels with the same rendered name are the same channel. */
  lemma ChannelNameInjective(a: Channel, b: Channel)
    requires WellFormed(a) && WellFormed(b)
    requires ChannelName(a) == ChannelName(b)
    ensures a == b
  {
    ParseChannelName(a);
    ParseChannelName(b);
  }

  /** After the digits only ASCII white space is skipped: a number followed by
      any other white space, such as U+00A0, is not a channel at all. */
  lemma NumberThenNonAsciiSpace(digits: string, c: char)
    requires |digits| > 0 && AllDigits(digits)
    requires IsWhiteSpace(c) && !IsAsciiWhiteSpace(c)
    ensures ParseChannel(digits + [c]) == None
  {
    var t := digits + [c];
    NumberStart(digits, [c]);
    assert TrimEndAscii(t) == t;
    assert !IsDigit(t[|t| - 1]);
  }

  /** ASCII white space after the digits is skipped: the number still reads. */
  lemma NumberThenAsciiSpace(digits: string, c: char)
    requires |digits| > 0 && AllDigits(digits) && DigitsValue(digits) <= MaxInt32
    requires IsAsciiWhiteSpace(c)
    ensures ParseChannel(digits + [c]) == Some(FromValue(DigitsValue(digits)))
  {
    var t := digits + [c];
    NumberStart(digits, [c]);
    DropAsciiSpace(digits, c);
    assert ParseInteger(digits) == Some(DigitsValue(digits) as int) by {
      assert IsDigit(digits[0]);
    }
  }

  /** Text that begins with digits has no leading white space and is read as a number. */
  lemma NumberStart(digits: string, rest: string)
    requires |digits| > 0 && AllDigits(digits)
    ensures TrimStart(digits + rest) == digits + rest
    ensures IsNumberStart((digits + rest)[0])
  {
    assert (digits + rest)[0] == digits[0];
  }

  lemma DropAsciiSpace(digits: string, c: char)
    requires |digits| > 0 && AllDigits(digits) && IsAsciiWhiteSpace(c)
    ensures TrimEndAscii(digits + [c]) == digits
  {
    assert (digits + [c])[..|digits|] == digits;
    assert !IsAsciiWhiteSpace(digits[|digits| - 1]);
  }

  lemma UpperIdempotent(s: string)
    ensures Upper(Upper(s)) == Upper(s)
  {
  }

  /** Integer text is unaffected by upper-casing: a letter makes both fail. */
  lemma ParseIntegerUpper(s: string)
    ensures ParseInteger(Upper(s)) == ParseInteger(s)
  {
    var u := Upper(s);
    if |s| > 0 && (s[0] == '+' || s[0] == '-') {
      assert u[1..] == Upper(s[1..]);
      if AllDigits(s[1..]) {
        assert u[1..] == s[1..];
      } else {
        var i :| 0 <= i < |s[1..]| && !IsDigit(s[1..][i]);
        assert !IsDigit(u[1..][i]);
      }
    } else if AllDigits(s) {
      assert u == s;
    } else if |s| > 0 {
      var i :| 0 <= i < |s| && !IsDigit(s[i]);
      assert !IsDigit(u[i]);
    }
  }

  /** Parsing ignores ASCII letter case. */
  lemma ParseIgnoresCase(s: string, s': string)
    requires Upper(s) == Upper(s')
    ensures ParseChannel(s) == ParseChannel(s')
  {
    ParseOfUpper(s);
    ParseOfUpper(s');
  }

  lemma ParseOfUpper(s: string)
    ensures ParseChannel(Upper(s)) == ParseChannel(s)
  {
    TrimStartUpper(s);
    ParseStrippedUpper(TrimStart(s));
  }

  lemma ParseStrippedUpper(t: string)
    ensures ParseStripped(Upper(t)) == ParseStripped(t)
  {
    if |t| > 0 {
      assert Upper(t)[0] == UpperChar(t[0]);
      if IsNumberStart(t[0]) {
        TrimEndAsciiUpper(t);
        ParseIntegerUpper(TrimEndAscii(t));
      } else {
        TrimEndUpper(t);
        UpperIdempotent(TrimEnd(t));
      }
    }
  }

  /** Each of the three member names, in any letter case and with surrounding
      white space, parses to its member. */
  lemma ParseByName(text: string, c: Channel)
    requires IsDeclared(c)
    requires Upper(Trim(text)) == Upper(ChannelName(c))
    ensures ParseChannel(text) == Some(c)
  {
    var t := TrimStart(text);
    var name := ChannelName(c);
    assert Trim(text) == TrimEnd(t);
    assert |Upper(TrimEnd(t))| == |Upper(name)| > 0;
    assert TrimEnd(t)[0] == t[0];
    assert UpperChar(t[0]) == Upper(name)[0];
  }

  /** NotificationStatus: Pending = 0, Sent = 1, Failed = 2, Retrying = 3. */
  datatype Status = Pending | Sent | Failed | Retrying

  /** Enum.ToString(): the member's declared name, which names no other member. */
  function StatusName(s: Status): (r: string)
    ensures StatusByName(r) == Some(s)
  {
    match s
    case Pending => "Pending"
    case Sent => "Sent"
    case Failed => "Failed"
    case Retrying => "Retrying"
  }

  /** The member declared under a name, if any. */
  function StatusByName(name: string): Option<Status> {
    if name == "Pending" then Some(Pending)
    else if name == "Sent" then Some(Sent)
    else if name == "Failed" then Some(Failed)
    else if name == "Retrying" then Some(Retrying)
    else None
  }

  /** Distinct statuses render to distinct names. */
  lemma StatusNameInjective(a: Status, b: Status)
    ensures StatusName(a) == StatusName(b) <==> a == b
  {
  }
}

/** The status messages the employee manager shows, and the banner that
    displays them: shown when the message is non-empty, styled "error" when
    the lower-cased message contains "error" and "success" otherwise. */
module Messages {
  import opened Values
  import opened Records

  const AddedMessage := "Employee added successfully."
  const AddErrorMessage := "Error adding employee."
  const UpdatedMessage := "Employee updated successfully."
  const UpdateErrorMessage := "Error updating employee."
  const DeleteErrorMessage := "Error deleting employee."
  const NotFoundMessage := "Employee not found."
  const FetchErrorMessage := "Error fetching employee."
  /* The longer messages are written as a few short literals each, which read
     as one string, so that the verifier can look up each of their characters. */
  const InvalidFormatMessage := "Invalid data " + "format received " + "from server."
  const ConnectFailedMessage :=
    "Failed to " + "connect to " + "server. Make " + "sure backend " + "is running on " + "port 2000."

  const ServerReturnedPrefix := "Failed to fetch " + "employees. " + "Server returned: "

  /** 'Failed to fetch employees. Server returned: ' + response.status: the
      fixed text, then the status code's numeral, without a leading zero,
      from which the code can be read back. */
  function ServerReturnedMessage(status: nat): (r: string)
    ensures |r| > |ServerReturnedPrefix| && r[..|ServerReturnedPrefix|] == ServerReturnedPrefix
    ensures AllDigits(r[|ServerReturnedPrefix|..]) && NoLeadingZero(r[|ServerReturnedPrefix|..]) &&
      ParseDigits(r[|ServerReturnedPrefix|..]) == status
  {
    NatToStringRoundTrip(status);
    assert (ServerReturnedPrefix + NatToString(status))[|ServerReturnedPrefix|..] == NatToString(status);
    ServerReturnedPrefix + NatToString(status)
  }

  /** The text a template literal gives for `emp.id`: `undefined` when the
      record has no `id` key. */
  function IdText(id: Option<Value>): string
  {
    match id
    case None => "undefined"
    case Some(v) => Text(v)
  }

  const EditingPrefix := "Editing employee with ID "

  /** `Editing employee with ID ${emp.id}`: the fixed text, then the text of
      the record's `id` field, or "undefined" when the record has none. */
  function EditingMessage(emp: Record): (r: string)
    ensures |r| >= |EditingPrefix| && r[..|EditingPrefix|] == EditingPrefix
    ensures !HasKey(emp, "id") ==> r[|EditingPrefix|..] == "undefined"
    ensures forall i :: 0 <= i < |emp| && emp[i].0 == "id" ==>
      r[|EditingPrefix|..] == Text(emp[i].1)
  {
    assert forall i :: 0 <= i < |emp| && emp[i].0 == "id" ==> Lookup(emp, "id") == Some(emp[i].1) by {
      forall i | 0 <= i < |emp| && emp[i].0 == "id" {
        LookupAt(emp, i);
      }
    }
    assert (EditingPrefix + IdText(Lookup(emp, "id")))[|EditingPrefix|..] == IdText(Lookup(emp, "id"));
    EditingPrefix + IdText(Lookup(emp, "id"))
  }

  datatype Style = Error | Success

  /** `toLowerCase` on the ASCII letters. No other character lower-cases to
      one of the letters of "error", so the search below sees the same
      windows as it would after full Unicode lower-casing. */
  function LowerChar(c: char): char
  {
    if 'A' <= c <= 'Z' then (c as int + ('a' as int - 'A' as int)) as char else c
  }

  function ToLower(s: string): (r: string)
    ensures |r| == |s| && forall i :: 0 <= i < |s| ==> r[i] == LowerChar(s[i])
  {
    if s == [] then [] else [LowerChar(s[0])] + ToLower(s[1..])
  }

  /** `pat` occurs in `s` starting at position `i`. */
  predicate OccursAt(s: string, pat: string, i: int)
  {
    0 <= i && i + |pat| <= |s| && s[i..i + |pat|] == pat
  }

  /** Without a match at its first position, `s` holds `pat` exactly when
      the rest of `s` does. */
  lemma OccursLater(s: string, pat: string)
    requires |s| >= |pat| && s[..|pat|] != pat
    ensures (exists i :: OccursAt(s, pat, i)) <==> (exists i :: OccursAt(s[1..], pat, i))
  {
    if exists i :: OccursAt(s[1..], pat, i) {
      var i :| OccursAt(s[1..], pat, i);
      assert s[i + 1..i + 1 + |pat|] == s[1..][i..i + |pat|];
      assert OccursAt(s, pat, i + 1);
    }
    if exists i :: OccursAt(s, pat, i) {
      var i :| OccursAt(s, pat, i);
      assert s[i..i + |pat|] == s[1..][i - 1..i - 1 + |pat|];
      assert OccursAt(s[1..], pat, i - 1);
    }
  }

  /** `s.includes(pat)`: it finds `pat` exactly when `pat` occurs at some
      position of `s`. */
  predicate Contains(s: string, pat: string)
    ensures Contains(s, pat) <==> exists i :: OccursAt(s, pat, i)
    decreases |s|
  {
    if |s| < |pat| then
      assert forall i :: !OccursAt(s, pat, i);
      false
    else if s[..|pat|] == pat then
      assert OccursAt(s, pat, 0);
      true
    else
      OccursLater(s, pat);
      Contains(s[1..], pat)
  }

  /** The banner for a message: None when nothing is shown. It is shown
      exactly for a non-empty message, and styled as an error exactly when
      "error", in any mix of cases, occurs in the message. */
  function Banner(message: string): (r: Option<Style>)
    ensures r.Some? <==> message != ""
    ensures r == Some(Error) <==>
      message != "" && exists i :: OccursAt(ToLower(message), "error", i)
  {
    var lower := ToLower(message);
    if message == "" then None
    else if Contains(lower, "error") then
      assert exists i :: OccursAt(ToLower(message), "error", i) by {
        var i :| OccursAt(lower, "error", i);
        assert OccursAt(ToLower(message), "error", i);
      }
      Some(Error)
    else Some(Success)
  }

  predicate IsR(c: char)
  {
    c == 'r' || c == 'R'
  }

  /** No two consecutive characters are both `r` or `R`, as they are in "error". */
  predicate NoDoubleR(s: string)
  {
    forall i :: 0 <= i < |s| - 1 ==> !(IsR(s[i]) && IsR(s[i + 1]))
  }

  /** A message with no `rr`, in any case, is never styled as an error. */
  lemma NoDoubleRIsSuccess(s: string)
    requires s != "" && NoDoubleR(s)
    ensures Banner(s) == Some(Success)
  {
    var lower := ToLower(s);
    forall i ensures !OccursAt(lower, "error", i) {
      if 0 <= i && i + 5 <= |lower| {
        var window := lower[i..i + 5];
        assert window[1] == LowerChar(s[i + 1]) && window[2] == LowerChar(s[i + 2]);
        assert !(IsR(s[i + 1]) && IsR(s[i + 2]));
        assert window[1] != 'r' || window[2] != 'r';
      }
    }
  }

  lemma NoDoubleRAppend(a: string, b: string)
    requires NoDoubleR(a) && NoDoubleR(b)
    requires a != [] && b != [] ==> !(IsR(a[|a| - 1]) && IsR(b[0]))
    ensures NoDoubleR(a + b)
  {
    forall i | 0 <= i < |a + b| - 1
      ensures !(IsR((a + b)[i]) && IsR((a + b)[i + 1]))
    {
      if i + 1 > |a| { assert (a + b)[i] == b[i - |a|]; }
    }
  }

  /** A message that begins with "Error" is styled as an error. */
  lemma LeadingErrorIsError(s: string)
    requires |s| >= 5 && s[..5] == "Error"
    ensures Banner(s) == Some(Error)
  {
    assert ToLower(s)[..5] == "error";
  }

  lemma ServerReturnedPrefixNoDoubleR()
    ensures NoDoubleR(ServerReturnedPrefix)
  {
    assert NoDoubleR("Failed to fetch ");
    assert NoDoubleR("employees. ");
    assert NoDoubleR("Server returned: ");
    NoDoubleRAppend("Failed to fetch ", "employees. ");
    NoDoubleRAppend("Failed to fetch " + "employees. ", "Server returned: ");
  }

  /** The list request's HTTP failure message never reads as an error: it is
      styled "success" whatever the status code. */
  lemma ServerReturnedIsSuccessStyled(status: nat)
    ensures Banner(ServerReturnedMessage(status)) == Some(Success)
  {
    ServerReturnedPrefixNoDoubleR();
    NatToStringRoundTrip(status);
    NoDoubleRAppend(ServerReturnedPrefix, NatToString(status));
    NoDoubleRIsSuccess(ServerReturnedMessage(status));
  }

  lemma ConnectFailedNoDoubleR()
    ensures NoDoubleR(ConnectFailedMessage)
  {
    assert NoDoubleR("Failed to ");
    assert NoDoubleR("connect to ");
    assert NoDoubleR("server. Make ");
    assert NoDoubleR("sure backend ");
    assert NoDoubleR("is running on ");
    assert NoDoubleR("port 2000.");
    NoDoubleRAppend("Failed to ", "connect to ");
    NoDoubleRAppend("Failed to " + "connect to ", "server. Make ");
    NoDoubleRAppend("Failed to " + "connect to " + "server. Make ", "sure backend ");
    NoDoubleRAppend("Failed to " + "connect to " + "server. Make " + "sure backend ", "is running on ");
    NoDoubleRAppend("Failed to " + "connect to " + "server. Make " + "sure backend " + "is running on ", "port 2000.");
  }

  /** The failure to connect is styled "success". */
  lemma ConnectFailedIsSuccessStyled()
    ensures Banner(ConnectFailedMessage) == Some(Success)
  {
    ConnectFailedNoDoubleR();
    NoDoubleRIsSuccess(ConnectFailedMessage);
  }

  lemma InvalidFormatNoDoubleR()
    ensures NoDoubleR(InvalidFormatMessage)
  {
    assert NoDoubleR("Invalid data ");
    assert NoDoubleR("format received ");
    assert NoDoubleR("from server.");
    NoDoubleRAppend("Invalid data ", "format received ");
    NoDoubleRAppend("Invalid data " + "format received ", "from server.");
  }

  /** A list response that is not an array is reported in "success" style. */
  lemma InvalidFormatIsSuccessStyled()
    ensures Banner(InvalidFormatMessage) == Some(Success)
  {
    InvalidFormatNoDoubleR();
    NoDoubleRIsSuccess(InvalidFormatMessage);
  }

  /** A failed lookup by id is reported in "success" style. */
  lemma NotFoundIsSuccessStyled()
    ensures Banner(NotFoundMessage) == Some(Success)
  {
    assert NoDoubleR(NotFoundMessage);
    NoDoubleRIsSuccess(NotFoundMessage);
  }

  /** The four "Error …" messages are styled "error". */
  lemma AddErrorIsErrorStyled()
    ensures Banner(AddErrorMessage) == Some(Error)
  {
    LeadingErrorIsError(AddErrorMessage);
  }

  lemma UpdateErrorIsErrorStyled()
    ensures Banner(UpdateErrorMessage) == Some(Error)
  {
    LeadingErrorIsError(UpdateErrorMessage);
  }

  lemma DeleteErrorIsErrorStyled()
    ensures Banner(DeleteErrorMessage) == Some(Error)
  {
    LeadingErrorIsError(DeleteErrorMessage);
  }

  lemma FetchErrorIsErrorStyled()
    ensures Banner(FetchErrorMessage) == Some(Error)
  {
    LeadingErrorIsError(FetchErrorMessage);
  }
}

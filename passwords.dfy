/** The password a user entered at a login prompt (`CredentialsWithPassword`). */
module Passwords {
  import opened Wrappers
  import Utf8

  /** The entered credentials; `password` is None where the property is null. */
  datatype CredentialsWithPassword = CredentialsWithPassword(password: Option<string>)
  {
    /** `GetPasswordAsByteArray`: null for a null password, otherwise the password's
        UTF-8 encoding, from which the password can be read back. */
    function GetPasswordAsByteArray(): (r: Option<seq<byte>>)
      ensures r.Some? <==> password.Some?
      ensures r.Some? ==> Utf8.Decode(r.value) == Some(password.value)
      ensures password == Some("") ==> r == Some([])
    {
      match password
      case None => None
      case Some(p) =>
        Utf8.DecodeEncode(p);
        Some(Utf8.Encode(p))
    }
  }

  /** Two entered passwords give equal bytes exactly when they are equal (both null,
      or equal strings). */
  lemma PasswordBytesInjective(a: CredentialsWithPassword, b: CredentialsWithPassword)
    ensures a.GetPasswordAsByteArray() == b.GetPasswordAsByteArray() <==> a == b
  {
    if a.GetPasswordAsByteArray() == b.GetPasswordAsByteArray() && a.password.Some? {
      assert Some(a.password.value) == Some(b.password.value);
    }
  }
}

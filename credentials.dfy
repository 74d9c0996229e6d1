// ICredentialManager as implemented by WindowsCredentialManager: a store of
// (user name, password) pairs keyed by a profile name. The Windows credential
// vault behind it is reduced to two maps, and its refusals to the error
// texts they raise.
module Credentials {
  import opened Wrappers

  /** Win32 error text of CredDelete on a missing credential (ERROR_NOT_FOUND). */
  const NotFoundMessage: string := "Element not found."

  class CredentialManager {
    var passwords: map<string, string>
    var userNames: map<string, string>

    constructor (passwords: map<string, string>, userNames: map<string, string>)
      ensures this.passwords == passwords && this.userNames == userNames
    {
      this.passwords := passwords;
      this.userNames := userNames;
    }

    /** The stored password, or an empty one when nothing is stored under `key`. */
    function GetPassword(key: string): (pw: string)
      reads this
      ensures key !in passwords ==> pw == ""
      ensures key in passwords ==> pw == passwords[key]
    {
      if key in passwords then passwords[key] else ""
    }

    /**
     * Stores or replaces the credential under `key`. `vaultError` is the text
     * of the `Win32Exception` thrown when `CredWrite` refuses the credential
     * (a blob over the vault's size limit, say), if it does; the catch logs
     * and rethrows it, and the vault is left as it was.
     */
    method SavePassword(key: string, userName: string, password: string, vaultError: Option<string>)
      returns (o: Outcome)
      modifies this
      ensures vaultError.Some? ==>
        o == Fail(Other(vaultError.value)) && passwords == old(passwords) && userNames == old(userNames)
      ensures vaultError.None? ==>
        o == Pass && passwords == old(passwords)[key := password] && userNames == old(userNames)[key := userName]
    {
      if vaultError.Some? {
        return Fail(Other(vaultError.value));
      }
      passwords := passwords[key := password];
      userNames := userNames[key := userName];
      o := Pass;
    }

    /** Removes the credential under `key`; throws when there is none. */
    method DeletePassword(key: string) returns (o: Outcome)
      modifies this
      ensures old(key in passwords) ==> o == Pass && passwords == old(passwords) - {key} && userNames == old(userNames) - {key}
      ensures old(key !in passwords) ==> o == Fail(Other(NotFoundMessage)) && passwords == old(passwords) && userNames == old(userNames)
      ensures passwords == old(passwords) - {key}
    {
      if key in passwords {
        passwords := passwords - {key};
        userNames := userNames - {key};
        o := Pass;
      } else {
        assert passwords - {key} == passwords;
        o := Fail(Other(NotFoundMessage));
      }
    }
  }
}

/** Message cache keys: cachekey/cache_key.go. */
module CacheKey {
  import opened Wrappers
  import opened Text

  const PREFIX_MESSAGE := "msg"
  const PREFIX_MESSAGE_HASH := "msg:hash"
  const SEPARATOR := ":"
  const ACCOUNT_PREFIX := "acc_"

  datatype KeyError =
    EmptyAccountID | InvalidAccountID | EmptyFolder | EmptyUID | InvalidUID | EmptyContentHash | InvalidFormat

  datatype KeyParts = KeyParts(accountID: string, folder: string, uid: string)

  function ValidateAccountID(id: string): Option<KeyError> {
    if id == "" then Some(EmptyAccountID)
    else if !(ACCOUNT_PREFIX <= id) then Some(InvalidAccountID)
    else None
  }

  function ValidateFolder(folder: string): Option<KeyError> {
    if folder == "" then Some(EmptyFolder) else None
  }

  function ValidateUID(uid: string): Option<KeyError> {
    if uid == "" then Some(EmptyUID)
    else
      match ParseUint32(uid)
      case None => Some(InvalidUID)
      case Some(n) => if n == 0 then Some(InvalidUID) else None
  }

  function KeyText(k: KeyParts): string {
    PREFIX_MESSAGE + SEPARATOR + k.accountID + SEPARATOR + k.folder + SEPARATOR + k.uid
  }

  /** The validation of Build: the first error, in the order account, folder, UID. */
  function Invalid(k: KeyParts): Option<KeyError> {
    if ValidateAccountID(k.accountID).Some? then ValidateAccountID(k.accountID)
    else if ValidateFolder(k.folder).Some? then ValidateFolder(k.folder)
    else ValidateUID(k.uid)
  }

  class MessageKeyBuilder {
    var accountID: string
    var folder: string
    var uid: string

    constructor ()
      ensures Parts() == KeyParts("", "", "")
    {
      accountID, folder, uid := "", "", "";
    }

    function Parts(): KeyParts
      reads this
    {
      KeyParts(accountID, folder, uid)
    }

    method AccountID(id: string) returns (b: MessageKeyBuilder)
      modifies this
      ensures b == this && Parts() == old(Parts()).(accountID := id)
    {
      accountID := id;
      b := this;
    }

    method Folder(name: string) returns (b: MessageKeyBuilder)
      modifies this
      ensures b == this && Parts() == old(Parts()).(folder := name)
    {
      folder := name;
      b := this;
    }

    method UID(u: string) returns (b: MessageKeyBuilder)
      modifies this
      ensures b == this && Parts() == old(Parts()).(uid := u)
    {
      uid := u;
      b := this;
    }

    method Build() returns (r: Result<string, KeyError>)
      ensures r.Err? <==> Invalid(Parts()).Some?
      ensures r.Err? ==> Some(r.error) == Invalid(Parts())
      ensures r.Ok? ==> r.value == KeyText(Parts())
      ensures r.Ok? && ':' !in accountID && ':' !in folder ==> ParseMessageKey(r.value) == Ok(Parts())
    {
      var accountError := ValidateAccountID(accountID);
      if accountError.Some? {
        return Err(accountError.value);
      }
      var folderError := ValidateFolder(folder);
      if folderError.Some? {
        return Err(folderError.value);
      }
      var uidError := ValidateUID(uid);
      if uidError.Some? {
        return Err(uidError.value);
      }
      ParseInvertsExactly(Parts());
      r := Ok(PREFIX_MESSAGE + SEPARATOR + accountID + SEPARATOR + folder + SEPARATOR + uid);
    }
  }

  /** MessageKey: the builder in one call. */
  method MessageKey(accountID: string, folder: string, uid: string) returns (r: Result<string, KeyError>)
    ensures var k := KeyParts(accountID, folder, uid);
      r == if Invalid(k).Some? then Err(Invalid(k).value) else Ok(KeyText(k))
  {
    var b := new MessageKeyBuilder();
    b := b.AccountID(accountID);
    b := b.Folder(folder);
    b := b.UID(uid);
    r := b.Build();
  }

  function ContentHashKey(contentHash: string): Result<string, KeyError> {
    if contentHash == "" then Err(EmptyContentHash)
    else Ok(PREFIX_MESSAGE_HASH + SEPARATOR + contentHash)
  }

  function ParseMessageKey(key: string): Result<KeyParts, KeyError> {
    var parts := Split(key, SEPARATOR);
    if |parts| != 4 || parts[0] != PREFIX_MESSAGE then Err(InvalidFormat)
    else Ok(KeyParts(parts[1], parts[2], parts[3]))
  }

  // ---- What is valid ----

  /**
    Parts are valid exactly when the account starts with "acc_", the folder is named, and the UID is a number from 1 to
    2^32 - 1 in decimal digits; else the first of them that is not decides the error.
   */
  lemma ValidExactly(k: KeyParts)
    ensures Invalid(k).None? <==>
      && "acc_" <= k.accountID && k.folder != ""
      && k.uid != "" && AllDigits(k.uid) && 1 <= DigitsValue(k.uid) <= 4_294_967_295
    ensures k.accountID == "" ==> Invalid(k) == Some(EmptyAccountID)
    ensures k.accountID != "" && !("acc_" <= k.accountID) ==> Invalid(k) == Some(InvalidAccountID)
    ensures "acc_" <= k.accountID && k.folder == "" ==> Invalid(k) == Some(EmptyFolder)
    ensures "acc_" <= k.accountID && k.folder != "" && k.uid == "" ==> Invalid(k) == Some(EmptyUID)
    ensures "acc_" <= k.accountID && k.folder != "" && k.uid != "" ==> Invalid(k) in {None, Some(InvalidUID)}
  {
  }

  /** The text of a key, and of a content hash key. */
  lemma KeysAre(k: KeyParts, contentHash: string)
    ensures KeyText(k) == "msg:" + k.accountID + ":" + k.folder + ":" + k.uid
    ensures contentHash != "" ==> ContentHashKey(contentHash) == Ok("msg:hash:" + contentHash)
    ensures contentHash == "" ==> ContentHashKey(contentHash) == Err(EmptyContentHash)
  {
    assert PREFIX_MESSAGE + SEPARATOR == "msg:";
    assert PREFIX_MESSAGE_HASH + SEPARATOR == "msg:hash:";
  }

  // ---- Properties ----

  lemma {:induction false} SplitPartsFree(s: string, c: char)
    ensures forall i | 0 <= i < |Split(s, [c])| :: c !in Split(s, [c])[i]
    decreases |s|
  {
    match Find(s, [c], 0)
    case None =>
      forall i | 0 <= i < |s| ensures s[i] != c { OccursAtChar(s, c, i); }
    case Some(k) =>
      SplitPartsFree(s[k + 1..], c);
      forall i | 0 <= i < k ensures s[i] != c { OccursAtChar(s, c, i); }
  }

  lemma KeyTextIsJoin(k: KeyParts)
    ensures KeyText(k) == Join([PREFIX_MESSAGE, k.accountID, k.folder, k.uid], SEPARATOR)
  {
    JoinCons(k.folder, [k.uid], SEPARATOR);
    assert [k.folder] + [k.uid] == [k.folder, k.uid];
    JoinCons(k.accountID, [k.folder, k.uid], SEPARATOR);
    assert [k.accountID] + [k.folder, k.uid] == [k.accountID, k.folder, k.uid];
    JoinCons(PREFIX_MESSAGE, [k.accountID, k.folder, k.uid], SEPARATOR);
    assert [PREFIX_MESSAGE] + [k.accountID, k.folder, k.uid] == [PREFIX_MESSAGE, k.accountID, k.folder, k.uid];
    var rest := k.folder + SEPARATOR + k.uid;
    assert PREFIX_MESSAGE + SEPARATOR + (k.accountID + SEPARATOR + rest) == KeyText(k);
  }

  /** Whenever parsing succeeds, joining the parts gives the key back. */
  lemma ParseThenJoin(key: string)
    requires ParseMessageKey(key).Ok?
    ensures KeyText(ParseMessageKey(key).value) == key
  {
    var parts := Split(key, SEPARATOR);
    var k := ParseMessageKey(key).value;
    assert parts == [PREFIX_MESSAGE, k.accountID, k.folder, k.uid];
    KeyTextIsJoin(k);
    JoinOfSplit(key, SEPARATOR);
  }

  /** A text parses to parts exactly when it is their key and none of them holds a colon. */
  lemma ParsesExactly(key: string, k: KeyParts)
    ensures ParseMessageKey(key) == Ok(k) <==>
      key == KeyText(k) && ':' !in k.accountID && ':' !in k.folder && ':' !in k.uid
  {
    var parts := [PREFIX_MESSAGE, k.accountID, k.folder, k.uid];
    KeyTextIsJoin(k);
    if key == KeyText(k) && ':' !in k.accountID && ':' !in k.folder && ':' !in k.uid {
      SplitOfJoin(parts, ':');
    }
    if ParseMessageKey(key) == Ok(k) {
      ParseThenJoin(key);
      SplitPartsFree(key, ':');
      assert Split(key, SEPARATOR) == parts;
      assert parts[1] == k.accountID && parts[2] == k.folder && parts[3] == k.uid;
    }
  }

  /** Parsing inverts the key of valid parts if and only if neither the account nor the folder holds a colon. */
  lemma ParseInvertsExactly(k: KeyParts)
    requires Invalid(k).None?
    ensures ParseMessageKey(KeyText(k)) == Ok(k) <==> ':' !in k.accountID && ':' !in k.folder
  {
    var parts := [PREFIX_MESSAGE, k.accountID, k.folder, k.uid];
    KeyTextIsJoin(k);
    if ':' !in k.accountID && ':' !in k.folder {
      SplitOfJoin(parts, ':');
    }
    SplitPartsFree(KeyText(k), ':');
  }

  /** The position of the first colon after the prefix, and of the last one, fix the three parts. */
  lemma KeyShape(k: KeyParts)
    requires Invalid(k).None? && ':' !in k.accountID
    ensures var s, a, u := KeyText(k), |k.accountID|, |k.uid|;
      && |s| == 4 + a + 1 + |k.folder| + 1 + u
      && s[4..4 + a] == k.accountID && s[4 + a] == ':'
      && s[|s| - u - 1] == ':' && s[|s| - u..] == k.uid
      && s[4 + a + 1..|s| - u - 1] == k.folder
  {
  }

  lemma SameLengths(k: KeyParts, k': KeyParts)
    requires Invalid(k).None? && Invalid(k').None?
    requires ':' !in k.accountID && ':' !in k'.accountID
    requires KeyText(k) == KeyText(k')
    ensures |k.accountID| >= |k'.accountID| && |k.uid| >= |k'.uid|
  {
    KeyShape(k);
  }

  /** Message keys of colon-free accounts are injective, whatever the folder names are. */
  lemma MessageKeyInjective(k: KeyParts, k': KeyParts)
    requires Invalid(k).None? && Invalid(k').None?
    requires ':' !in k.accountID && ':' !in k'.accountID
    requires KeyText(k) == KeyText(k')
    ensures k == k'
  {
    SameLengths(k, k');
    SameLengths(k', k);
    KeyShape(k);
    KeyShape(k');
  }

  // ---- Which keys collide ----

  /** The account and the folder in one, as they stand in the key. */
  function Middle(k: KeyParts): string {
    k.accountID + SEPARATOR + k.folder
  }

  lemma KeyOfMiddle(k: KeyParts)
    ensures KeyText(k) == PREFIX_MESSAGE + SEPARATOR + Middle(k) + SEPARATOR + k.uid
  {
  }

  lemma UIDNotLonger(k: KeyParts, k': KeyParts)
    requires Invalid(k).None? && Invalid(k').None? && KeyText(k) == KeyText(k')
    ensures |k.uid| <= |k'.uid|
  {
    var s := KeyText(k);
    KeyOfMiddle(k);
    KeyOfMiddle(k');
    assert s[|s| - |k'.uid| - 1] == ':';
  }

  /** Equal keys have the same UID: no valid UID has a colon. */
  lemma SameMiddle(k: KeyParts, k': KeyParts)
    requires Invalid(k).None? && Invalid(k').None? && KeyText(k) == KeyText(k')
    ensures k.uid == k'.uid && Middle(k) == Middle(k')
  {
    UIDNotLonger(k, k');
    UIDNotLonger(k', k);
    KeyOfMiddle(k);
    KeyOfMiddle(k');
    var s := KeyText(k);
    assert s[|s| - |k.uid|..] == k.uid && s[|s| - |k'.uid|..] == k'.uid;
    assert s[4..|s| - |k.uid| - 1] == Middle(k) && s[4..|s| - |k'.uid| - 1] == Middle(k');
  }

  /** The same text with a shorter account: the account has a colon, or with a longer one, the folder has. */
  lemma ShiftedColon(k: KeyParts, k': KeyParts)
    requires Middle(k) == Middle(k') && k'.folder != ""
    ensures |k'.accountID| < |k.accountID| ==> ':' in k.accountID
    ensures |k'.accountID| > |k.accountID| ==> ':' in k.folder[..|k.folder| - 1]
  {
    var m, a, a' := Middle(k), |k.accountID|, |k'.accountID|;
    assert m[a] == ':' && m[a'] == ':';
    if a' < a {
      assert k.accountID[a'] == m[a'];
    } else if a' > a {
      assert k.folder[a' - a - 1] == m[a'];
      assert k.folder[..|k.folder| - 1][a' - a - 1] == ':';
    }
  }

  lemma SameAccount(k: KeyParts, k': KeyParts)
    requires Middle(k) == Middle(k') && |k.accountID| == |k'.accountID|
    ensures k.accountID == k'.accountID && k.folder == k'.folder
  {
    var m, a := Middle(k), |k.accountID|;
    assert m[..a] == k.accountID && m[..a] == k'.accountID;
    assert m[a + 1..] == k.folder && m[a + 1..] == k'.folder;
  }

  /** The part of the account behind a colon can as well belong to the folder. */
  lemma FromAccount(k: KeyParts, i: nat) returns (k': KeyParts)
    requires Invalid(k).None? && i < |k.accountID| && k.accountID[i] == ':'
    ensures Invalid(k').None? && k' != k && KeyText(k') == KeyText(k)
  {
    k' := KeyParts(k.accountID[..i], k.accountID[i + 1..] + SEPARATOR + k.folder, k.uid);
    assert forall j | 0 <= j < 4 :: k.accountID[j] == ACCOUNT_PREFIX[j];
    assert i >= 4;
    assert k.accountID == k.accountID[..i] + SEPARATOR + k.accountID[i + 1..];
    assert Middle(k') == Middle(k);
    KeyOfMiddle(k);
    KeyOfMiddle(k');
  }

  /** And the part of the folder before a colon to the account. */
  lemma FromFolder(k: KeyParts, i: nat) returns (k': KeyParts)
    requires Invalid(k).None? && i < |k.folder| - 1 && k.folder[i] == ':'
    ensures Invalid(k').None? && k' != k && KeyText(k') == KeyText(k)
  {
    k' := KeyParts(k.accountID + SEPARATOR + k.folder[..i], k.folder[i + 1..], k.uid);
    assert k.folder == k.folder[..i] + SEPARATOR + k.folder[i + 1..];
    assert ACCOUNT_PREFIX <= k'.accountID;
    assert |k'.accountID| > |k.accountID|;
    assert Middle(k') == Middle(k);
    KeyOfMiddle(k);
    KeyOfMiddle(k');
  }

  /**
    Other valid parts have the same key if and only if the account ID has a colon, or the folder has one that is
    not its last character.
   */
  lemma CollidesExactly(k: KeyParts)
    requires Invalid(k).None?
    ensures (exists k' :: Invalid(k').None? && k' != k && KeyText(k') == KeyText(k))
      <==> ':' in k.accountID || ':' in k.folder[..|k.folder| - 1]
  {
    if ':' in k.accountID {
      var i :| 0 <= i < |k.accountID| && k.accountID[i] == ':';
      var k' := FromAccount(k, i);
    } else if ':' in k.folder[..|k.folder| - 1] {
      var i :| 0 <= i < |k.folder| - 1 && k.folder[i] == ':';
      var k' := FromFolder(k, i);
    } else {
      forall k' | Invalid(k').None? && KeyText(k') == KeyText(k) ensures k' == k {
        SameMiddle(k, k');
        ShiftedColon(k, k');
        SameAccount(k, k');
      }
    }
  }

  /** For example, an account ID with a colon shares its keys with another account's folder. */
  lemma ColonInAccountCollides()
    ensures var k, k' := KeyParts("acc_a:b", "c", "1"), KeyParts("acc_a", "b:c", "1");
      Invalid(k).None? && Invalid(k').None? && KeyText(k) == KeyText(k') && k != k'
  {
    assert "1"[..0] == "";
    assert DigitsValue("1") == 1;
    assert "acc_a:b" + ":" + "c" == "acc_a" + ":" + "b:c";
    assert KeyText(KeyParts("acc_a:b", "c", "1")) == "msg:acc_a:b:c:1";
  }

  /** No message key is a content hash key. */
  lemma MessageKeyIsNoHashKey(k: KeyParts, contentHash: string)
    requires Invalid(k).None? && contentHash != ""
    ensures Ok(KeyText(k)) != ContentHashKey(contentHash)
  {
    assert KeyText(k)[4] == k.accountID[0] == 'a';
    assert ContentHashKey(contentHash).value[4] == 'h';
  }
}

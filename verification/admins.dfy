/**
 * The administrator roster: the mail recipients of the controller, and the
 * `setupAdmins` script that creates or updates administrators by email.
 * Password hashing (bcrypt) is an opaque function supplied by the caller.
 */
module Admins {
  import opened Common
  import opened Text

  /** A stored password credential: the output of the hash function, never the plaintext. */
  datatype Credential = BcryptHash(digest: string)

  datatype Admin = Admin(email: string, password: Credential)

  /** One element of the script's `adminsToCreateOrUpdate` list. */
  datatype AdminEntry = AdminEntry(email: string, password: Option<string>)

  /** `allAdmins.map(admin => admin.email)`, in roster order. */
  function Emails(admins: seq<Admin>): (r: seq<string>)
    ensures |r| == |admins|
    ensures forall i :: 0 <= i < |admins| ==> r[i] == admins[i].email
    decreases |admins|
  {
    if admins == [] then [] else [admins[0].email] + Emails(admins[1..])
  }

  /** The `to` field of a notification, or None when the roster is empty and no mail is sent. */
  function Recipients(admins: seq<Admin>): (to: Option<string>)
    ensures to.None? <==> |admins| == 0
  {
    if |Emails(admins)| > 0 then Some(JoinList(Emails(admins))) else None
  }

  /** The recipient list names every administrator, in roster order, when no address contains a comma. */
  lemma RecipientsNameEveryAdmin(admins: seq<Admin>)
    requires |admins| > 0
    requires forall i :: 0 <= i < |admins| ==> NoComma(admins[i].email)
    ensures SplitList(Recipients(admins).value) == Emails(admins)
  {
    SplitJoinRoundTrip(Emails(admins));
  }

  predicate HasEmail(roster: seq<Admin>, email: string) {
    exists i :: 0 <= i < |roster| && roster[i].email == email
  }

  /** No two administrators share an email. */
  predicate UniqueEmails(roster: seq<Admin>) {
    forall i, j :: 0 <= i < j < |roster| ==> roster[i].email != roster[j].email
  }

  /** The position of the first administrator at or after `from` with that email, or `|roster|`. */
  function FirstWithEmail(roster: seq<Admin>, email: string, from: nat := 0): (k: nat)
    requires from <= |roster|
    ensures from <= k <= |roster|
    ensures k < |roster| ==> roster[k].email == email
    ensures forall i :: from <= i < k ==> roster[i].email != email
    decreases |roster| - from
  {
    if from == |roster| || roster[from].email == email then from
    else FirstWithEmail(roster, email, from + 1)
  }

  /** The search finds an administrator exactly when the roster has one with that email. */
  lemma FirstWithEmailFinds(roster: seq<Admin>, email: string)
    ensures FirstWithEmail(roster, email) < |roster| <==> HasEmail(roster, email)
  {
    var k := FirstWithEmail(roster, email);
    if k < |roster| {
      assert roster[k].email == email;
    }
  }

  /**
   * `findOneAndUpdate({ email }, { $set: { password } }, { upsert: true })`:
   * the first administrator with that email gets the new password; when there
   * is none, a new administrator is inserted after the existing ones.
   */
  function Upsert(roster: seq<Admin>, email: string, password: Credential): (r: seq<Admin>)
    ensures HasEmail(roster, email) ==> |r| == |roster|
    ensures !HasEmail(roster, email) ==> r == roster + [Admin(email, password)]
    ensures forall i :: 0 <= i < |roster| && roster[i].email != email ==> r[i] == roster[i]
    ensures forall i :: 0 <= i < |roster| ==> r[i].email == roster[i].email
    ensures var k := FirstWithEmail(roster, email);
      k < |r| && r[k] == Admin(email, password) && r[..k] == roster[..k]
  {
    var k := FirstWithEmail(roster, email);
    FirstWithEmailFinds(roster, email);
    if k < |roster| then roster[k := Admin(email, password)]
    else roster + [Admin(email, password)]
  }

  /** After an upsert the roster has exactly the emails it had plus the upserted one. */
  lemma UpsertHasEmail(roster: seq<Admin>, email: string, password: Credential, other: string)
    ensures HasEmail(Upsert(roster, email, password), other) <==> HasEmail(roster, other) || other == email
  {
    var r := Upsert(roster, email, password);
    var k := FirstWithEmail(roster, email);
    assert r[k].email == email;
    if HasEmail(roster, other) {
      var i :| 0 <= i < |roster| && roster[i].email == other;
      assert r[i].email == other;
    }
    if HasEmail(r, other) && other != email {
      var i :| 0 <= i < |r| && r[i].email == other;
      FirstWithEmailFinds(roster, email);
      assert i < |roster| && roster[i].email == other;
    }
  }

  /** `!adminData.password`: an absent or empty password makes the script skip the entry. */
  predicate Skipped(entry: AdminEntry) {
    entry.password.None? || entry.password.value == ""
  }

  /** One iteration of the `for` loop of `setupAdmins`. */
  function ProcessEntry(roster: seq<Admin>, entry: AdminEntry, hash: string -> string): (r: seq<Admin>)
    ensures Skipped(entry) ==> r == roster
  {
    if Skipped(entry) then roster
    else Upsert(roster, entry.email, BcryptHash(hash(entry.password.value)))
  }

  /** `setupAdmins`: the entries processed in list order. */
  function SetupAdmins(roster: seq<Admin>, entries: seq<AdminEntry>, hash: string -> string): seq<Admin>
    decreases |entries|
  {
    if entries == [] then roster
    else SetupAdmins(ProcessEntry(roster, entries[0], hash), entries[1..], hash)
  }

  /** Processing a list then one more entry is processing the extended list: entries take effect in order. */
  lemma {:induction false} SetupInListOrder(roster: seq<Admin>, entries: seq<AdminEntry>, last: AdminEntry,
                                            hash: string -> string)
    ensures SetupAdmins(roster, entries + [last], hash) == ProcessEntry(SetupAdmins(roster, entries, hash), last, hash)
    decreases |entries|
  {
    if entries != [] {
      assert (entries + [last])[1..] == entries[1..] + [last];
      SetupInListOrder(ProcessEntry(roster, entries[0], hash), entries[1..], last, hash);
    }
  }

  /** An upsert never creates a second administrator with the same email. */
  lemma UpsertKeepsEmailsUnique(roster: seq<Admin>, email: string, password: Credential)
    requires UniqueEmails(roster)
    ensures UniqueEmails(Upsert(roster, email, password))
  {
    var r := Upsert(roster, email, password);
    if !HasEmail(roster, email) {
      forall i, j | 0 <= i < j < |r|
        ensures r[i].email != r[j].email
      {
        if j == |roster| {
          assert r[i] == roster[i];
        }
      }
    }
  }

  /** The script keeps emails unique: running it twice never duplicates an administrator. */
  lemma {:induction false} SetupKeepsEmailsUnique(roster: seq<Admin>, entries: seq<AdminEntry>, hash: string -> string)
    requires UniqueEmails(roster)
    ensures UniqueEmails(SetupAdmins(roster, entries, hash))
    decreases |entries|
  {
    if entries != [] {
      var next := ProcessEntry(roster, entries[0], hash);
      if !Skipped(entries[0]) {
        UpsertKeepsEmailsUnique(roster, entries[0].email, BcryptHash(hash(entries[0].password.value)));
      }
      SetupKeepsEmailsUnique(next, entries[1..], hash);
    }
  }

  /** The entries the script acts on: those with a password. */
  predicate Names(entries: seq<AdminEntry>, email: string) {
    exists k :: 0 <= k < |entries| && !Skipped(entries[k]) && entries[k].email == email
  }

  /**
   * Administrators the list does not name keep their position and record;
   * the roster only grows, and the existing emails stay where they were.
   */
  lemma {:induction false} SetupLeavesOthersUntouched(roster: seq<Admin>, entries: seq<AdminEntry>,
                                                      hash: string -> string)
    ensures var r := SetupAdmins(roster, entries, hash);
      && |roster| <= |r|
      && (forall i :: 0 <= i < |roster| ==> r[i].email == roster[i].email)
      && (forall i :: 0 <= i < |roster| && !Names(entries, roster[i].email) ==> r[i] == roster[i])
    decreases |entries|
  {
    if entries != [] {
      var next := ProcessEntry(roster, entries[0], hash);
      SetupLeavesOthersUntouched(next, entries[1..], hash);
    }
  }

  /** Whether the list names an email: its head does, or its tail does. */
  lemma NamesCons(entries: seq<AdminEntry>, email: string)
    requires entries != []
    ensures Names(entries, email) <==> (!Skipped(entries[0]) && entries[0].email == email) || Names(entries[1..], email)
  {
    if Names(entries, email) {
      var k :| 0 <= k < |entries| && !Skipped(entries[k]) && entries[k].email == email;
      if k > 0 {
        assert entries[1..][k - 1] == entries[k];
      }
    }
    if Names(entries[1..], email) {
      var k :| 0 <= k < |entries[1..]| && !Skipped(entries[1..][k]) && entries[1..][k].email == email;
      assert entries[k + 1] == entries[1..][k];
    }
  }

  /** After the script, every entry with a password has an administrator with its email. */
  lemma {:induction false} SetupRegistersEveryEntry(roster: seq<Admin>, entries: seq<AdminEntry>,
                                                    hash: string -> string, email: string)
    ensures HasEmail(SetupAdmins(roster, entries, hash), email) <==> HasEmail(roster, email) || Names(entries, email)
    decreases |entries|
  {
    if entries != [] {
      var e := entries[0];
      var next := ProcessEntry(roster, e, hash);
      SetupRegistersEveryEntry(next, entries[1..], hash, email);
      if !Skipped(e) {
        UpsertHasEmail(roster, e.email, BcryptHash(hash(e.password.value)), email);
      }
      NamesCons(entries, email);
    }
  }

  /** A processed entry leaves its administrator holding the hash of the given password. */
  lemma StoredPasswordIsHash(roster: seq<Admin>, entry: AdminEntry, hash: string -> string)
    requires UniqueEmails(roster) && !Skipped(entry)
    ensures var r := ProcessEntry(roster, entry, hash);
      forall i :: 0 <= i < |r| && r[i].email == entry.email ==> r[i].password == BcryptHash(hash(entry.password.value))
  {
    var cred := BcryptHash(hash(entry.password.value));
    var r := ProcessEntry(roster, entry, hash);
    UpsertKeepsEmailsUnique(roster, entry.email, cred);
    var k := FirstWithEmail(roster, entry.email);
    assert r[k] == Admin(entry.email, cred);
  }
}

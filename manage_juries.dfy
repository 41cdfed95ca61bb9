/** The newer client's jury form: a new jury's user name is the cleaned
    name, made unique by a counter; its password is the one typed in or a
    generated one. */
module ManageJuries {
  import opened Util
  import opened ClientTypes
  import opened Auth

  function Usernames(users: seq<User>): set<string> {
    set u | u in users :: u.username
  }

  /** The user name tried on the `counter`-th turn of the loop: the
      cleaned name, then the cleaned name followed by 2, 3, … */
  function Candidate(cleanName: string, counter: nat): string {
    if counter <= 1 then cleanName else cleanName + NatToString(counter)
  }

  /** Different turns try different names. */
  lemma CandidateInjective(cleanName: string, a: nat, b: nat)
    requires 1 <= a && 1 <= b && a != b
    ensures Candidate(cleanName, a) != Candidate(cleanName, b)
  {
    if a > 1 && b > 1 && Candidate(cleanName, a) == Candidate(cleanName, b) {
      var x, y := NatToString(a), NatToString(b);
      assert x == Candidate(cleanName, a)[|cleanName|..];
      assert y == Candidate(cleanName, b)[|cleanName|..];
      NatToStringInjective(a, b);
    }
  }

  function Tried(cleanName: string, n: nat): set<string> {
    set k | 1 <= k <= n :: Candidate(cleanName, k)
  }

  lemma {:induction false} TriedCount(cleanName: string, n: nat)
    ensures |Tried(cleanName, n)| == n
  {
    if n > 0 {
      TriedCount(cleanName, n - 1);
      assert Tried(cleanName, n) == Tried(cleanName, n - 1) + {Candidate(cleanName, n)};
      forall k | 1 <= k <= n - 1 ensures Candidate(cleanName, k) != Candidate(cleanName, n) {
        CandidateInjective(cleanName, k, n);
      }
    } else {
      assert Tried(cleanName, 0) == {};
    }
  }

  lemma {:induction false} UsernamesCount(users: seq<User>)
    ensures |Usernames(users)| <= |users|
  {
    if users != [] {
      UsernamesCount(users[1..]);
      assert users == [users[0]] + users[1..];
      assert Usernames(users) == Usernames(users[1..]) + {users[0].username};
    }
  }

  /** The dedupe loop of `handleSaveJury`: the first candidate no existing
      user has. It ends because every taken candidate belongs to a
      different user. */
  method UniqueUsername(users: seq<User>, cleanName: string) returns (username: string)
    ensures username !in Usernames(users)
    ensures exists n: nat :: 1 <= n <= |users| + 1 && username == Candidate(cleanName, n)
              && forall k :: 1 <= k < n ==> Candidate(cleanName, k) in Usernames(users)
  {
    username := cleanName;
    var counter: nat := 1;
    while exists u :: u in users && u.username == username
      invariant 1 <= counter
      invariant username == Candidate(cleanName, counter)
      invariant forall k :: 1 <= k < counter ==> Candidate(cleanName, k) in Usernames(users)
      invariant counter <= |users| + 1
      decreases |users| + 1 - counter
    {
      assert Tried(cleanName, counter) <= Usernames(users);
      TriedCount(cleanName, counter);
      UsernamesCount(users);
      SubsetCard(Tried(cleanName, counter), Usernames(users));
      counter := counter + 1;
      username := cleanName + NatToString(counter);
    }
  }

  /** The call `handleSaveJury` makes. */
  datatype JuryWrite =
    | NoSave
    | UpdateJury(id: string, username: string, assignedCriteria: seq<string>, password: Option<string>)
    | AddJury(username: string, newPassword: string, event: string, assignedCriteria: seq<string>)

  /** `handleSaveJury`: nothing without a non-blank name and an event. An
      edit renames to the typed name and changes the password only when a
      non-blank one is typed; a new jury gets a unique cleaned user name and
      the typed password, trimmed, or else a generated one. */
  method HandleSaveJury(users: seq<User>, editing: Option<User>, juryName: string, juryPassword: string,
                        selected: seq<string>, currentEventId: Option<string>,
                        suffixDraw: nat, charDraws: seq<nat>)
    returns (w: JuryWrite)
    requires suffixDraw < 1000
    requires |charDraws| == PasswordLength
    requires forall i :: 0 <= i < |charDraws| ==> charDraws[i] < |PasswordAlphabet|
    ensures w.NoSave? <==> Trim(juryName) == "" || !TruthyStr(currentEventId)
    ensures w.UpdateJury? ==>
              editing.Some? && w.id == editing.value.id && w.username == juryName && w.assignedCriteria == selected
              && w.password == (if Trim(juryPassword) != "" then Some(Trim(juryPassword)) else None)
    ensures w.AddJury? ==>
              editing.None? && w.event == currentEventId.value && w.assignedCriteria == selected
              && w.username !in Usernames(users)
              && (exists n: nat :: 1 <= n <= |users| + 1 && w.username == Candidate(CleanName(juryName), n)
                    && forall k :: 1 <= k < n ==> Candidate(CleanName(juryName), k) in Usernames(users))
              && (Trim(juryPassword) != "" ==> w.newPassword == Trim(juryPassword))
              && (Trim(juryPassword) == "" ==>
                    |w.newPassword| == PasswordLength
                    && forall i :: 0 <= i < |w.newPassword| ==> w.newPassword[i] == PasswordAlphabet[charDraws[i]])
    ensures !w.NoSave? ==> (w.UpdateJury? <==> editing.Some?)
  {
    if Trim(juryName) == "" || !TruthyStr(currentEventId) {
      return NoSave;
    }
    if editing.Some? {
      var password := if Trim(juryPassword) != "" then Some(Trim(juryPassword)) else None;
      return UpdateJury(editing.value.id, juryName, selected, password);
    }
    var username := UniqueUsername(users, CleanName(juryName));
    var password: string;
    if Trim(juryPassword) != "" {
      password := Trim(juryPassword);
    } else {
      var _, generated := GenerateJuryCredentials(juryName, suffixDraw, charDraws);
      password := generated;
    }
    w := AddJury(username, password, currentEventId.value, selected);
  }
}

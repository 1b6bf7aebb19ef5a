/**
 * The user roster: an ordered list of user records kept in memory and
 * mirrored, as a whole, to browser storage after every change.
 */
module UsersStore {

  import opened Wrappers
  import opened Strings
  import opened KeyedLists
  import opened UserTypes

  /** The storage key the roster is persisted under. */
  const StorageKey := "svelte-userhub-users"

  // ---------------------------------------------------------------------------
  // Avatars: getUserInitials

  /** `word[0]`, with a missing first character joining as the empty string. */
  function FirstChar(word: string): (r: string)
    ensures |r| == (if word == "" then 0 else 1)
    ensures r <= word
  {
    if word == "" then "" else [word[0]]
  }

  /** `words.map(w => w[0]).join("")`. */
  function Heads(words: seq<string>): (r: string)
    ensures |r| <= |words|
    ensures (forall i | 0 <= i < |words| :: words[i] != "") ==> |r| == |words|
  {
    if words == [] then "" else FirstChar(words[0]) + Heads(words[1..])
  }

  /**
   * The avatar text of a name: the first character of every `" "`-separated
   * token, run together and upper-cased. An empty token, left by a leading,
   * trailing or doubled space, contributes nothing.
   */
  function GetUserInitials(name: string): (r: string)
    ensures NoLowerAscii(r)
    ensures |r| <= |Split(name, ' ')| == Occurrences(name, ' ') + 1
    ensures (forall i | 0 <= i < |Split(name, ' ')| :: Split(name, ' ')[i] != "") ==>
              |r| == |Split(name, ' ')|
  {
    ToUpper(Heads(Split(name, ' ')))
  }

  /**
   * An independent reading of the initials: the characters of `s` that are not
   * spaces and stand at the start or right after a space. `atStart` says
   * whether the previous character was a space (or there was none).
   */
  function WordStarts(s: string, atStart: bool): string
  {
    if s == [] then ""
    else (if atStart && s[0] != ' ' then [s[0]] else "") + WordStarts(s[1..], s[0] == ' ')
  }

  /** What a word start at the front of `s` contributes. */
  function Lead(s: string): string
  {
    if s != [] && s[0] != ' ' then [s[0]] else ""
  }

  lemma {:induction false} WordStartsSplit(s: string)
    ensures WordStarts(s, true) == Lead(s) + WordStarts(s, false)
    ensures WordStarts(s, false) == Heads(Split(s, ' ')[1..])
    ensures Lead(s) == FirstChar(Split(s, ' ')[0])
    decreases |s|
  {
    if s != [] {
      WordStartsSplit(s[1..]);
      var rest := Split(s[1..], ' ');
      if s[0] == ' ' {
        assert Split(s, ' ')[1..] == rest;
        assert Heads(rest) == FirstChar(rest[0]) + Heads(rest[1..]);
      } else {
        assert Split(s, ' ') == [[s[0]] + rest[0]] + rest[1..];
      }
    }
  }

  /** The initials are exactly the upper-cased word starts of the name. */
  lemma InitialsAreWordStarts(name: string)
    ensures GetUserInitials(name) == ToUpper(WordStarts(name, true))
  {
    WordStartsSplit(name);
    var words := Split(name, ' ');
    assert Heads(words) == FirstChar(words[0]) + Heads(words[1..]);
  }

  /** A name built from space-free words has, as initials, the words' first characters upper-cased. */
  lemma InitialsOfWords(words: seq<string>)
    requires |words| >= 1
    requires forall i | 0 <= i < |words| :: ' ' !in words[i]
    ensures GetUserInitials(Join(words, ' ')) == ToUpper(Heads(words))
  {
    SplitJoin(words, ' ');
  }

  /** Two-word names give two initials. */
  lemma TwoWordInitials(first: string, last: string)
    requires first != "" && last != "" && ' ' !in first && ' ' !in last
    ensures GetUserInitials(first + " " + last) == ToUpper([first[0], last[0]])
  {
    InitialsOfWords([first, last]);
    assert Join([first, last], ' ') == first + " " + last;
  }

  /** A name with exactly one space, at index `k`, strictly inside it. */
  lemma OneSpaceInitials(name: string, k: nat)
    requires 0 < k < |name| - 1 && name[k] == ' '
    requires forall j | 0 <= j < |name| && j != k :: name[j] != ' '
    ensures GetUserInitials(name) == ToUpper([name[0], name[k + 1]])
  {
    assert name == name[..k] + " " + name[k + 1..];
    TwoWordInitials(name[..k], name[k + 1..]);
  }

  // One lemma per seed name: each takes the name as a variable, so that the
  // string functions are not unfolded over several literals in one proof.

  /** The seed name "John Doe" has the avatar the seed list gives it. */
  lemma JohnDoeInitials(name: string)
    requires name == "John Doe"
    ensures GetUserInitials(name) == "JD"
  {
    OneSpaceInitials(name, 4);
  }

  /** The seed name "Jane Smith" has the avatar the seed list gives it. */
  lemma JaneSmithInitials(name: string)
    requires name == "Jane Smith"
    ensures GetUserInitials(name) == "JS"
  {
    OneSpaceInitials(name, 4);
  }

  /** The seed name "Robert Johnson" has the avatar the seed list gives it. */
  lemma RobertJohnsonInitials(name: string)
    requires name == "Robert Johnson"
    ensures GetUserInitials(name) == "RJ"
  {
    OneSpaceInitials(name, 6);
  }

  /** The seed name "Emily Davis" has the avatar the seed list gives it. */
  lemma EmilyDavisInitials(name: string)
    requires name == "Emily Davis"
    ensures GetUserInitials(name) == "ED"
  {
    OneSpaceInitials(name, 5);
  }

  /** The seed name "Michael Wilson" has the avatar the seed list gives it. */
  lemma MichaelWilsonInitials(name: string)
    requires name == "Michael Wilson"
    ensures GetUserInitials(name) == "MW"
  {
    OneSpaceInitials(name, 7);
  }

  /** The name "Ann Lee" gets the avatar "AL". */
  lemma AnnLeeInitials(name: string)
    requires name == "Ann Lee"
    ensures GetUserInitials(name) == "AL"
  {
    OneSpaceInitials(name, 3);
  }

  // ---------------------------------------------------------------------------
  // The seed list

  /**
   * `initialUsers`. The ids are drawn once, when the module loads, so they are
   * a parameter here; `reset` restores this same list.
   */
  function InitialUsers(ids: seq<string>): (seed: seq<UserRecord>)
    requires |ids| == 5
    ensures |seed| == 5
    ensures forall i | 0 <= i < 5 :: seed[i].id == ids[i]
  {
    [ UserRecord(ids[0], "John Doe", "john.doe@example.com", Admin, "JD", "2023-01-15"),
      UserRecord(ids[1], "Jane Smith", "jane.smith@example.com", User, "JS", "2023-02-20"),
      UserRecord(ids[2], "Robert Johnson", "robert.j@example.com", Editor, "RJ", "2023-03-10"),
      UserRecord(ids[3], "Emily Davis", "emily.davis@example.com", User, "ED", "2023-04-05"),
      UserRecord(ids[4], "Michael Wilson", "michael.w@example.com", Admin, "MW", "2023-05-12") ]
  }

  /** Each seed record's avatar is the initials of its name, as `addUser` and `updateUser` would compute it. */
  lemma {:induction false} SeedAvatarAgrees(ids: seq<string>, i: nat)
    requires |ids| == 5 && i < 5
    ensures InitialUsers(ids)[i].avatar == GetUserInitials(InitialUsers(ids)[i].name)
  {
    var u := InitialUsers(ids)[i];
    if i == 0 {
      JohnDoeInitials(u.name);
    } else if i == 1 {
      JaneSmithInitials(u.name);
    } else if i == 2 {
      RobertJohnsonInitials(u.name);
    } else if i == 3 {
      EmilyDavisInitials(u.name);
    } else {
      MichaelWilsonInitials(u.name);
    }
  }

  /** Distinct seed ids give a seed list with unique ids. */
  lemma InitialUsersUnique(ids: seq<string>)
    requires |ids| == 5
    requires forall i, j | 0 <= i < j < 5 :: ids[i] != ids[j]
    ensures UniqueKeys(InitialUsers(ids), UserId)
  {
  }

  // ---------------------------------------------------------------------------
  // The transforms

  /** `new Date().toISOString().split("T")[0]`: the date part of an ISO timestamp. */
  function DatePart(iso: string): (date: string)
    ensures 'T' !in date
    ensures date <= iso
    ensures |date| < |iso| ==> iso[|date|] == 'T'
  {
    SplitFirst(iso, 'T');
    Split(iso, 'T')[0]
  }

  /**
   * The record `addUser` builds from its input: the input's name, email and
   * role, under the fresh id, with the avatar computed from the name and the
   * date part of the current timestamp as join date.
   */
  function NewUser(input: UserRecord, id: string, now: string): (u: UserRecord)
    ensures u.name == input.name && u.email == input.email && u.role == input.role
    ensures u.id == id && u.avatar == GetUserInitials(input.name) && u.joinDate == DatePart(now)
  {
    input.(id := id, avatar := GetUserInitials(input.name), joinDate := DatePart(now))
  }

  /** `[...users, newUser]`. */
  function AddedUsers(users: seq<UserRecord>, input: UserRecord, id: string, now: string): (r: seq<UserRecord>)
    ensures |r| == |users| + 1
    ensures r[..|users|] == users
    ensures r[|users|] == NewUser(input, id, now)
  {
    users + [NewUser(input, id, now)]
  }

  /** The id, avatar and join date of `addUser`'s input play no part: only name, email and role are read. */
  lemma AddIgnoresGeneratedFields(users: seq<UserRecord>, input: UserRecord, other: UserRecord, id: string, now: string)
    requires other.name == input.name && other.email == input.email && other.role == input.role
    ensures AddedUsers(users, other, id, now) == AddedUsers(users, input, id, now)
  {
  }

  /** Adding under a fresh id keeps ids unique. */
  lemma AddKeepsUnique(users: seq<UserRecord>, input: UserRecord, id: string, now: string)
    requires UniqueKeys(users, UserId) && NoKey(users, UserId, id)
    ensures UniqueKeys(AddedUsers(users, input, id, now), UserId)
  {
    var r := AddedUsers(users, input, id, now);
    assert forall i | 0 <= i < |users| :: r[i] == users[i];
  }

  /** The record `updateUser` stores: the input as given, with its avatar recomputed from its name. */
  function Revised(updated: UserRecord): (u: UserRecord)
    ensures u.id == updated.id && u.name == updated.name && u.email == updated.email
    ensures u.role == updated.role && u.joinDate == updated.joinDate
    ensures u.avatar == GetUserInitials(updated.name)
  {
    updated.(avatar := GetUserInitials(updated.name))
  }

  /** `users.map(u => u.id === updated.id ? {...updated, avatar} : u)`. */
  function UpdatedUsers(users: seq<UserRecord>, updated: UserRecord): (r: seq<UserRecord>)
    ensures |r| == |users|
    ensures forall i | 0 <= i < |users| ::
              r[i] == if users[i].id == updated.id then Revised(updated) else users[i]
  {
    if users == [] then []
    else [if users[0].id == updated.id then Revised(updated) else users[0]] + UpdatedUsers(users[1..], updated)
  }

  /** Updating an id that no record has changes nothing. */
  lemma UpdateAbsent(users: seq<UserRecord>, updated: UserRecord)
    requires NoKey(users, UserId, updated.id)
    ensures UpdatedUsers(users, updated) == users
  {
    assert forall i | 0 <= i < |users| :: users[i].id != updated.id;
  }

  /** Updating leaves the ids, and so their order and uniqueness, as they were. */
  lemma UpdateKeepsIds(users: seq<UserRecord>, updated: UserRecord)
    ensures Keys(UpdatedUsers(users, updated), UserId) == Keys(users, UserId)
  {
  }

  /** Applying the same update twice is applying it once. */
  lemma UpdateIdempotent(users: seq<UserRecord>, updated: UserRecord)
    ensures UpdatedUsers(UpdatedUsers(users, updated), updated) == UpdatedUsers(users, updated)
  {
  }

  /** Any avatar supplied with the update is ignored. */
  lemma UpdateIgnoresAvatar(users: seq<UserRecord>, updated: UserRecord, avatar: string)
    ensures UpdatedUsers(users, updated.(avatar := avatar)) == UpdatedUsers(users, updated)
  {
  }

  /** `users.filter(u => u.id !== id)`. */
  function DeletedUsers(users: seq<UserRecord>, id: string): (r: seq<UserRecord>)
    ensures NoKey(r, UserId, id)
    ensures forall u :: u in r <==> u in users && u.id != id
    ensures IsSubsequence(r, users)
  {
    WithoutMembers(users, UserId, id);
    WithoutKeepsOrder(users, UserId, id);
    Without(users, UserId, id)
  }

  /** Deleting twice is deleting once, and deleting an absent id changes nothing. */
  lemma DeleteIdempotent(users: seq<UserRecord>, id: string)
    ensures DeletedUsers(DeletedUsers(users, id), id) == DeletedUsers(users, id)
    ensures NoKey(users, UserId, id) ==> DeletedUsers(users, id) == users
  {
    WithoutIdempotent(users, UserId, id);
    if NoKey(users, UserId, id) {
      WithoutAbsent(users, UserId, id);
    }
  }

  /** With unique ids, deleting the id at index `i` removes exactly that record. */
  lemma DeleteExactlyOne(users: seq<UserRecord>, i: nat)
    requires UniqueKeys(users, UserId) && i < |users|
    ensures DeletedUsers(users, users[i].id) == users[..i] + users[i + 1..]
  {
    WithoutUnique(users, UserId, i);
  }

  /** Deleting the record just added under a fresh id gives back the list from before `addUser`. */
  lemma DeleteUndoesAdd(users: seq<UserRecord>, input: UserRecord, id: string, now: string)
    requires NoKey(users, UserId, id)
    ensures DeletedUsers(AddedUsers(users, input, id, now), id) == users
  {
    WithoutConcat(users, [NewUser(input, id, now)], UserId, id);
    WithoutAbsent(users, UserId, id);
  }

  /** Deleting keeps ids unique. */
  lemma DeleteKeepsUnique(users: seq<UserRecord>, id: string)
    requires UniqueKeys(users, UserId)
    ensures UniqueKeys(DeletedUsers(users, id), UserId)
  {
    WithoutKeepsUnique(users, UserId, id);
  }

  // ---------------------------------------------------------------------------
  // Initialisation

  /**
   * The list the store starts with: outside a browser the empty list; in a
   * browser the persisted list if there is one, else the seed.
   */
  function Loaded(browser: bool, stored: Option<seq<UserRecord>>, seed: seq<UserRecord>): (r: seq<UserRecord>)
    ensures !browser ==> r == []
    ensures browser && stored.Some? ==> r == stored.value
    ensures browser && stored.None? ==> r == seed
  {
    if !browser then [] else if stored.Some? then stored.value else seed
  }

  /**
   * The roster store. `users` is the in-memory list, `stored` the value under
   * the key `StorageKey`, and `browser` whether storage exists at all.
   */
  class UserStore {
    const browser: bool
    const seed: seq<UserRecord>
    var users: seq<UserRecord>
    var stored: Option<seq<UserRecord>>

    /** In a browser, storage holds exactly the in-memory list. */
    ghost predicate Valid()
      reads this
    {
      browser ==> stored == Some(users)
    }

    /**
     * `createUserStore`: in a browser, load the persisted list, or else start
     * from the seed and persist it. `seedIds` are the ids `initialUsers` drew.
     */
    constructor (browser: bool, seedIds: seq<string>, stored: Option<seq<UserRecord>>)
      requires |seedIds| == 5
      ensures Valid()
      ensures this.browser == browser && seed == InitialUsers(seedIds)
      ensures users == Loaded(browser, stored, seed)
      ensures this.stored == if browser && stored.None? then Some(seed) else stored
    {
      this.browser := browser;
      seed := InitialUsers(seedIds);
      users := Loaded(browser, stored, InitialUsers(seedIds));
      this.stored := if browser && stored.None? then Some(InitialUsers(seedIds)) else stored;
    }

    /** Persist the list, when there is storage. */
    method Persist()
      modifies this`stored
      ensures stored == if browser then Some(users) else old(stored)
      ensures Valid()
    {
      if browser {
        stored := Some(users);
      }
    }

    /** `addUser`: append the new record under the fresh id `id`; `now` is the current ISO timestamp. */
    method AddUser(input: UserRecord, id: string, now: string)
      requires Valid()
      requires NoKey(users, UserId, id)
      modifies this
      ensures Valid()
      ensures users == AddedUsers(old(users), input, id, now)
      ensures stored == if browser then Some(users) else old(stored)
    {
      users := AddedUsers(users, input, id, now);
      Persist();
    }

    /** `updateUser`: replace every record with the input's id. */
    method UpdateUser(updated: UserRecord)
      requires Valid()
      modifies this
      ensures Valid()
      ensures users == UpdatedUsers(old(users), updated)
      ensures stored == if browser then Some(users) else old(stored)
    {
      users := UpdatedUsers(users, updated);
      Persist();
    }

    /** `deleteUser`: drop every record with id `id`. */
    method DeleteUser(id: string)
      requires Valid()
      modifies this
      ensures Valid()
      ensures users == DeletedUsers(old(users), id)
      ensures stored == if browser then Some(users) else old(stored)
    {
      users := DeletedUsers(users, id);
      Persist();
    }

    /** `reset`: restore the seed list. */
    method Reset()
      requires Valid()
      modifies this
      ensures Valid()
      ensures users == seed
      ensures stored == if browser then Some(seed) else old(stored)
    {
      users := seed;
      Persist();
    }
  }

  /**
   * Reloading the page: a new store built in a browser from what a valid
   * browser store left in storage starts with that store's list, and leaves
   * storage as it was, whatever ids its own seed draws.
   */
  method Reopen(store: UserStore, seedIds: seq<string>) returns (reopened: UserStore)
    requires store.Valid() && store.browser && |seedIds| == 5
    ensures reopened.users == store.users && reopened.stored == store.stored
  {
    reopened := new UserStore(true, seedIds, store.stored);
  }

  /**
   * Adding "Ann Lee" to a fresh browser store appends one record with avatar
   * "AL", persists the longer list, and deleting it restores the seed.
   */
  method AddThenDeleteScenario(seedIds: seq<string>, id: string, now: string)
    requires |seedIds| == 5 && id !in seedIds
  {
    var store := new UserStore(true, seedIds, None);
    var before := store.users;
    assert before == InitialUsers(seedIds) && NoKey(before, UserId, id);
    store.AddUser(UserRecord("", "Ann Lee", "a@x.com", User, "", ""), id, now);
    AnnLeeInitials("Ann Lee");
    assert |store.users| == |before| + 1;
    assert store.users[|before|].avatar == "AL" && store.users[|before|].joinDate == DatePart(now);
    assert store.stored == Some(store.users);
    DeleteUndoesAdd(before, UserRecord("", "Ann Lee", "a@x.com", User, "", ""), id, now);
    store.DeleteUser(id);
    assert store.users == before && store.stored == Some(before);
  }
}

/** user_management.py: a user_data.json file holding a map from username to profile;
    add_user and remove_user change the map in place and save it, get_user_info and
    list_all_users only read it. */
module UserManagement {
  import opened Wrappers

  /** The record add_user stores under a username. */
  datatype Profile = Profile(phoneNumber: string, age: int, weight: real, gender: string)

  /** user_data.json as load_user_data finds it: absent, present but not valid JSON,
      or holding the map. */
  datatype UserDataFile = NoFile | Corrupt | Saved(users: map<string, Profile>)

  /** How a call ends: with a returned value, or with an exception propagating out of it. */
  datatype Outcome<T> = Returned(value: T) | Raised(exception: string)

  /** load_user_data: {} when the file does not exist, the stored map otherwise; a file
      that is not valid JSON makes json.load raise JSONDecodeError, which nothing catches. */
  function LoadUserData(file: UserDataFile): (r: Outcome<map<string, Profile>>)
    ensures file.NoFile? ==> r == Returned(map[])
    ensures r.Raised? <==> file.Corrupt?
    ensures r.Raised? ==> r.exception == "JSONDecodeError"
    ensures file.Saved? ==> r == Returned(file.users)
  {
    match file
    case NoFile => Returned(map[])
    case Corrupt => Raised("JSONDecodeError")
    case Saved(stored) => Returned(stored)
  }

  /** What one add_user or remove_user call produces: its message, the map it ends
      with, and whether it called save_user_data. */
  datatype Update = Update(message: string, users: map<string, Profile>, saved: bool)

  /** add_user's decision on the loaded map: an existing name is refused without a
      save; a new name gets exactly the given profile, every other entry is kept, and
      the map is saved. */
  function AddUserTo(m: map<string, Profile>, username: string, profile: Profile): (u: Update)
    ensures username in m ==> u == Update("User already exists.", m, false)
    ensures username !in m ==>
      && u.message == "User added successfully!" && u.saved
      && u.users.Keys == m.Keys + {username}
      && u.users[username] == profile
      && (forall k :: k in m ==> u.users[k] == m[k])
  {
    if username in m then Update("User already exists.", m, false)
    else Update("User added successfully!", m[username := profile], true)
  }

  /** remove_user's decision on the loaded map: an absent name is refused without a
      save; otherwise exactly that entry is deleted and the map is saved. */
  function RemoveUserFrom(m: map<string, Profile>, username: string): (u: Update)
    ensures username !in m ==> u == Update("User not found.", m, false)
    ensures username in m ==>
      && u.message == "User removed successfully!" && u.saved
      && u.users.Keys == m.Keys - {username}
      && (forall k :: k in u.users ==> u.users[k] == m[k])
  {
    if username !in m then Update("User not found.", m, false)
    else Update("User removed successfully!", m - {username}, true)
  }

  /** get_user_info's answer on the loaded map: the stored profile, or "User not found.". */
  function Lookup(m: map<string, Profile>, username: string): (r: Result<Profile, string>)
    ensures username in m ==> r == Success(m[username])
    ensures username !in m ==> r == Failure("User not found.")
  {
    if username in m then Success(m[username]) else Failure("User not found.")
  }

  /** A user added under a fresh name is found with exactly the profile given. */
  lemma AddThenLookup(m: map<string, Profile>, username: string, profile: Profile)
    requires username !in m
    ensures Lookup(AddUserTo(m, username, profile).users, username) == Success(profile)
  {
  }

  /** After a removal the name is not found, whether or not it was there. */
  lemma RemoveThenLookup(m: map<string, Profile>, username: string)
    ensures Lookup(RemoveUserFrom(m, username).users, username) == Failure("User not found.")
  {
  }

  /** Adding a fresh name and removing it again gives back the map it started from. */
  lemma AddThenRemove(m: map<string, Profile>, username: string, profile: Profile)
    requires username !in m
    ensures RemoveUserFrom(AddUserTo(m, username, profile).users, username).users == m
  {
    var added := AddUserTo(m, username, profile).users;
    assert added - {username} == m;
  }

  /** The user_data.json file the four operations load and save. */
  class UserFile {
    var file: UserDataFile

    constructor (file: UserDataFile)
      ensures this.file == file
    {
      this.file := file;
    }

    /** What load_user_data yields for the current file. */
    function Users(): Outcome<map<string, Profile>>
      reads this
    {
      LoadUserData(file)
    }

    /** add_user: inserts the profile under a new username in place and saves;
        an existing username is refused and nothing is written; an undecodable file
        makes the call raise before anything is written. */
    method AddUser(username: string, phoneNumber: string, age: int, weight: real, gender: string)
      returns (r: Outcome<string>)
      modifies this
      ensures old(Users()).Raised? ==> r == Raised("JSONDecodeError") && file == old(file)
      ensures old(Users()).Returned? ==>
        var u := AddUserTo(old(Users()).value, username, Profile(phoneNumber, age, weight, gender));
        r == Returned(u.message) && file == (if u.saved then Saved(u.users) else old(file))
      ensures r == Returned("User added successfully!") ==>
        GetUserInfo(username) == Returned(Success(Profile(phoneNumber, age, weight, gender)))
    {
      var loaded := Users();
      if loaded.Raised? {
        return Raised(loaded.exception);
      }
      var userData := loaded.value;
      if username in userData {
        return Returned("User already exists.");
      }
      userData := userData[username := Profile(phoneNumber, age, weight, gender)];
      file := Saved(userData);
      r := Returned("User added successfully!");
    }

    /** remove_user: deletes the username in place and saves; an absent username is
        refused and nothing is written; an undecodable file makes the call raise. */
    method RemoveUser(username: string) returns (r: Outcome<string>)
      modifies this
      ensures old(Users()).Raised? ==> r == Raised("JSONDecodeError") && file == old(file)
      ensures old(Users()).Returned? ==>
        var u := RemoveUserFrom(old(Users()).value, username);
        r == Returned(u.message) && file == (if u.saved then Saved(u.users) else old(file))
      ensures r.Returned? ==> GetUserInfo(username) == Returned(Failure("User not found."))
    {
      var loaded := Users();
      if loaded.Raised? {
        return Raised(loaded.exception);
      }
      var userData := loaded.value;
      if username !in userData {
        return Returned("User not found.");
      }
      userData := userData - {username};
      file := Saved(userData);
      r := Returned("User removed successfully!");
    }

    /** get_user_info: the stored profile, or "User not found."; an undecodable file
        makes the call raise. */
    function GetUserInfo(username: string): (r: Outcome<Result<Profile, string>>)
      reads this
      ensures file.Corrupt? ==> r == Raised("JSONDecodeError")
      ensures !file.Corrupt? && username in Users().value ==> r == Returned(Success(Users().value[username]))
      ensures !file.Corrupt? && username !in Users().value ==> r == Returned(Failure("User not found."))
    {
      match Users()
      case Raised(e) => Raised(e)
      case Returned(m) => Returned(Lookup(m, username))
    }

    /** list_all_users: the whole loaded map, as stored ({} when there is no file); an
        undecodable file makes the call raise. */
    function ListAllUsers(): (r: Outcome<map<string, Profile>>)
      reads this
      ensures file.NoFile? ==> r == Returned(map[])
      ensures file.Corrupt? ==> r == Raised("JSONDecodeError")
      ensures file.Saved? ==> r == Returned(file.users)
    {
      Users()
    }
  }
}

/**
 * AccountController: the account page's profile workflow over the user store
 * and the one-slot status message (`TempData["StatusMessage"]`) that the next
 * rendered page shows. The signed-in user's id is passed in explicitly, and
 * each save's outcome is a parameter: a save either commits the user it was
 * given or leaves the store as it was.
 */
module Controllers {
  import opened Nullable
  import opened ViewModels
  import opened Entities
  import opened ProfileImages

  const BasicInfoUpdated := "Updated basic information successfully."
  const BasicInfoNotSaved := "Unable to save basic information."
  const AdressInfoUpdated := "Updated address information successfully."
  const AdressInfoNotSaved := "Unable to save address information."
  const ProfileImageNotUploaded := "Unable to upload profile image,"

  class AccountController {
    /** The persisted users, keyed by id, each with its address if it has one. */
    var users: map<string, User>
    /** `TempData["StatusMessage"]`. */
    var statusMessage: Option<string>
    /** The key the store gives the next address row it inserts. */
    var nextAdressId: nat

    ghost predicate Valid()
      reads this
    {
      StoreInvariant(users, nextAdressId)
    }

    /** The controller over an existing store, with no status message yet. */
    constructor (users: map<string, User>, nextAdressId: nat)
      requires StoreInvariant(users, nextAdressId)
      ensures Valid()
      ensures this.users == users && this.nextAdressId == nextAdressId && statusMessage == None
    {
      this.users := users;
      this.nextAdressId := nextAdressId;
      statusMessage := None;
    }

    /** The account page for the signed-in user: the basic fields copied from
        the user, the address fields from the user's address, or all null when
        the user has none. */
    function Details(currentUserId: string): (vm: AccountDetailsViewModel)
      reads this
      requires Valid()
      requires currentUserId in users
      ensures vm.basic.Some? && vm.adress.Some?
      ensures var u := users[currentUserId];
        && vm.basic.value.firstName == u.firstName && vm.basic.value.lastName == u.lastName
        && vm.basic.value.email == u.email && vm.basic.value.phoneNumber == u.phoneNumber
        && vm.basic.value.bio == u.bio && vm.basic.value.profileImage == None
      ensures var u := users[currentUserId];
        vm.adress.value == if u.adress.Some? then AdressFields(u.adress.value) else AccountAdressInfo(None, None, None, None)
      // the address part shown would pass validation exactly when the user has an address
      ensures AdressInfoValid(vm.adress.value) <==> users[currentUserId].adress.Some?
    {
      var user := users[currentUserId];
      AccountDetailsViewModel(
        Some(AccountBasicInfo(user.firstName, user.lastName, user.email, user.phoneNumber, user.bio, None)),
        Some(AccountAdressInfo(
          if user.adress.Some? then user.adress.value.adressLine1 else None,
          if user.adress.Some? then user.adress.value.adressLine2 else None,
          if user.adress.Some? then user.adress.value.postalCode else None,
          if user.adress.Some? then user.adress.value.city else None)))
    }

    /** Posting the basic-information form. */
    method UpdateBasicInfo(currentUserId: string, basic: AccountBasicInfo, saveSucceeds: bool)
      requires Valid()
      modifies this
      ensures Valid() && nextAdressId == old(nextAdressId)
      // an invalid form changes no user and reports failure
      ensures !BasicInfoValid(basic) ==> users == old(users) && statusMessage == Some(BasicInfoNotSaved)
      // a valid form for a user that cannot be found changes nothing at all
      ensures BasicInfoValid(basic) && currentUserId !in old(users) ==>
        users == old(users) && statusMessage == old(statusMessage)
      // a failed save changes no user and reports the same failure as an invalid form
      ensures BasicInfoValid(basic) && currentUserId in old(users) && !saveSucceeds ==>
        users == old(users) && statusMessage == Some(BasicInfoNotSaved)
      // a successful save overwrites the five fields, keeps the login name equal to the
      // e-mail, and leaves the address, the image and every other user as they were
      ensures BasicInfoValid(basic) && currentUserId in old(users) && saveSucceeds ==>
        && users == old(users)[currentUserId := old(users)[currentUserId].(
             firstName := basic.firstName, lastName := basic.lastName, email := basic.email,
             phoneNumber := basic.phoneNumber, userName := basic.email, bio := basic.bio)]
        && users[currentUserId].userName == users[currentUserId].email
        && statusMessage == Some(BasicInfoUpdated)
        && Details(currentUserId).basic == Some(basic.(profileImage := None))
        && Details(currentUserId).adress == old(Details(currentUserId).adress)
    {
      if BasicInfoValid(basic) {
        if currentUserId in users {
          var user := users[currentUserId];
          user := user.(firstName := basic.firstName);
          user := user.(lastName := basic.lastName);
          user := user.(email := basic.email);
          user := user.(phoneNumber := basic.phoneNumber);
          user := user.(userName := basic.email);
          user := user.(bio := basic.bio);
          if saveSucceeds {
            users := users[currentUserId := user];
            statusMessage := Some(BasicInfoUpdated);
          } else {
            statusMessage := Some(BasicInfoNotSaved);
          }
        }
      } else {
        statusMessage := Some(BasicInfoNotSaved);
      }
    }

    /** Posting the address form: update the loaded address in place, or
        attach a new one when the user has none. */
    method UpdateAddressInfo(currentUserId: string, adress: AccountAdressInfo, saveSucceeds: bool)
      requires Valid()
      modifies this
      ensures Valid()
      // an invalid form changes nothing in the store and reports failure
      ensures !AdressInfoValid(adress) ==>
        users == old(users) && nextAdressId == old(nextAdressId) && statusMessage == Some(AdressInfoNotSaved)
      // a valid form for a user that cannot be found changes nothing at all
      ensures AdressInfoValid(adress) && currentUserId !in old(users) ==>
        users == old(users) && nextAdressId == old(nextAdressId) && statusMessage == old(statusMessage)
      // a save that throws changes nothing in the store and reports failure
      ensures AdressInfoValid(adress) && currentUserId in old(users) && !saveSucceeds ==>
        users == old(users) && nextAdressId == old(nextAdressId) && statusMessage == Some(AdressInfoNotSaved)
      // a successful save gives the user exactly the submitted address and touches no one else
      ensures AdressInfoValid(adress) && currentUserId in old(users) && saveSucceeds ==>
        var had := old(users)[currentUserId].adress;
        var key := if had.Some? then had.value.id else old(nextAdressId);
        && users == old(users)[currentUserId := old(users)[currentUserId].(adress := Some(
             Adress(key, adress.adressLine1, adress.adressLine2, adress.postalCode, adress.city)))]
        && nextAdressId == (if had.Some? then old(nextAdressId) else old(nextAdressId) + 1)
        && statusMessage == Some(AdressInfoUpdated)
        && Details(currentUserId).adress == Some(adress)
        && Details(currentUserId).basic == old(Details(currentUserId).basic)
      // an existing address keeps its identity; a new one has a key no address had before
      ensures AdressInfoValid(adress) && currentUserId in old(users) && saveSucceeds ==>
        && users[currentUserId].adress.Some?
        && (old(users)[currentUserId].adress.Some? ==>
              users[currentUserId].adress.value.id == old(users)[currentUserId].adress.value.id)
        && (old(users)[currentUserId].adress.None? ==>
              forall id :: id in old(users) && old(users)[id].adress.Some? ==>
                old(users)[id].adress.value.id != users[currentUserId].adress.value.id)
    {
      if AdressInfoValid(adress) {
        if currentUserId in users {
          var user := users[currentUserId];
          var created := false;
          if user.adress.Some? {
            var a := user.adress.value;
            a := a.(adressLine1 := adress.adressLine1);
            a := a.(adressLine2 := adress.adressLine2);
            a := a.(postalCode := adress.postalCode);
            a := a.(city := adress.city);
            user := user.(adress := Some(a));
          } else {
            user := user.(adress := Some(Adress(nextAdressId, adress.adressLine1, adress.adressLine2,
                                                adress.postalCode, adress.city)));
            created := true;
          }
          if saveSucceeds {
            SaveAdressKeepsInvariant(users, nextAdressId, currentUserId, user.adress.value);
            users := users[currentUserId := user];
            if created {
              nextAdressId := nextAdressId + 1;
            }
            statusMessage := Some(AdressInfoUpdated);
          } else {
            statusMessage := Some(AdressInfoNotSaved);
          }
        }
      } else {
        statusMessage := Some(AdressInfoNotSaved);
      }
    }

    /** Uploading a profile image: store the file under a fresh name and point
        the user at it. The result of the user's save is not looked at, so no
        status is set on that path whatever the save does. */
    method UploadProfileImage(currentUserId: string, file: Option<FormFile>, guid: Guid, saveSucceeds: bool)
      requires Valid()
      modifies this
      ensures Valid() && nextAdressId == old(nextAdressId)
      // a missing user, a missing file or an empty file changes no user and reports failure
      ensures !(currentUserId in old(users) && file.Some? && file.value.length != 0) ==>
        users == old(users) && statusMessage == Some(ProfileImageNotUploaded)
      // otherwise the status is left alone, and a successful save points the user at the new name
      ensures currentUserId in old(users) && file.Some? && file.value.length != 0 ==>
        && statusMessage == old(statusMessage)
        && users == if saveSucceeds
             then old(users)[currentUserId := old(users)[currentUserId].(profileImage := Some(
                    ProfileImageFileName(currentUserId, guid, GetExtension(file.value.fileName))))]
             else old(users)
    {
      if currentUserId in users && file.Some? && file.value.length != 0 {
        var user := users[currentUserId];
        var fileName := ProfileImageFileName(user.id, guid, GetExtension(file.value.fileName));
        user := user.(profileImage := Some(fileName));
        if saveSucceeds {
          SetImageKeepsInvariant(users, nextAdressId, currentUserId, fileName);
          users := users[currentUserId := user];
        }
      } else {
        statusMessage := Some(ProfileImageNotUploaded);
      }
    }
  }
}

/**
 * Two-step uses of the account page, proved from the controller's contracts
 * alone: the address is created once and then edited in place, and each
 * upload gets a file name of its own.
 */
module Scenarios {
  import opened Nullable
  import opened ViewModels
  import opened Entities
  import opened ProfileImages
  import opened Controllers

  /** A user without an address saves the address form twice: the first save
      creates the address, the second edits that same address. */
  method SaveAddressTwice(c: AccountController, userId: string, first: AccountAdressInfo, second: AccountAdressInfo)
    requires c.Valid() && userId in c.users && c.users[userId].adress.None?
    requires AdressInfoValid(first) && AdressInfoValid(second)
    modifies c
    ensures c.Valid() && userId in c.users
    ensures c.users[userId].adress.Some? && AdressFields(c.users[userId].adress.value) == second
    ensures c.users[userId].adress.value.id == old(c.nextAdressId)
    ensures c.nextAdressId == old(c.nextAdressId) + 1
    ensures c.statusMessage == Some(AdressInfoUpdated)
  {
    c.UpdateAddressInfo(userId, first, true);
    c.UpdateAddressInfo(userId, second, true);
  }

  /** Two accepted uploads with different GUIDs: the user ends up pointing at
      the second file, whose name differs from the first one's. */
  method UploadTwice(c: AccountController, userId: string, f1: FormFile, g1: Guid, f2: FormFile, g2: Guid)
    returns (name1: string, name2: string)
    requires c.Valid() && userId in c.users
    requires f1.length != 0 && f2.length != 0 && g1 != g2
    modifies c
    ensures name1 == ProfileImageFileName(userId, g1, GetExtension(f1.fileName))
    ensures name2 == ProfileImageFileName(userId, g2, GetExtension(f2.fileName))
    ensures name1 != name2
    ensures userId in c.users && c.users[userId].profileImage == Some(name2)
    ensures c.statusMessage == old(c.statusMessage)
  {
    c.UploadProfileImage(userId, Some(f1), g1, true);
    c.UploadProfileImage(userId, Some(f2), g2, true);
    name1 := ProfileImageFileName(userId, g1, GetExtension(f1.fileName));
    name2 := ProfileImageFileName(userId, g2, GetExtension(f2.fileName));
    if name1 == name2 {
      FileNameDeterminesGuid(userId, g1, GetExtension(f1.fileName), g2, GetExtension(f2.fileName));
    }
  }
}

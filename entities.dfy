/**
 * The persisted records behind the account page: a user and the address it
 * owns. Only the fields the account page reads or writes are kept.
 */
module Entities {
  import opened Nullable
  import opened ViewModels

  /** An address row; `id` is the key the store assigns when it is first saved. */
  datatype Adress = Adress(
    id: nat,
    adressLine1: Option<string>,
    adressLine2: Option<string>,
    postalCode: Option<string>,
    city: Option<string>)

  /** A user row together with its optionally loaded address. */
  datatype User = User(
    id: string,
    firstName: Option<string>,
    lastName: Option<string>,
    email: Option<string>,
    userName: Option<string>,
    phoneNumber: Option<string>,
    bio: Option<string>,
    adress: Option<Adress>,
    profileImage: Option<string>)

  /** The address as the address form would carry it. */
  function AdressFields(a: Adress): AccountAdressInfo {
    AccountAdressInfo(a.adressLine1, a.adressLine2, a.postalCode, a.city)
  }

  /** What the store keeps true: each user is filed under its own id, every
      address was saved through a valid address form and has a key below the
      next one to hand out, and no two users share an address. */
  ghost predicate StoreInvariant(users: map<string, User>, nextAdressId: nat) {
    && (forall id :: id in users ==> users[id].id == id)
    && (forall id :: id in users && users[id].adress.Some? ==>
          users[id].adress.value.id < nextAdressId && AdressInfoValid(AdressFields(users[id].adress.value)))
    && (forall id1, id2 ::
          id1 in users && id2 in users && id1 != id2 && users[id1].adress.Some? && users[id2].adress.Some?
          ==> users[id1].adress.value.id != users[id2].adress.value.id)
  }

  /** Saving a user with a valid address, either under the key of the
      address it already had or under a fresh key, keeps the store invariant. */
  lemma SaveAdressKeepsInvariant(users: map<string, User>, nextAdressId: nat, id: string, a: Adress)
    requires StoreInvariant(users, nextAdressId)
    requires id in users && AdressInfoValid(AdressFields(a))
    requires if users[id].adress.Some? then a.id == users[id].adress.value.id else a.id == nextAdressId
    ensures StoreInvariant(users[id := users[id].(adress := Some(a))],
                           if users[id].adress.Some? then nextAdressId else nextAdressId + 1)
  {
  }

  /** Pointing a user at another profile image keeps the store invariant. */
  lemma SetImageKeepsInvariant(users: map<string, User>, nextAdressId: nat, id: string, image: string)
    requires StoreInvariant(users, nextAdressId) && id in users
    ensures StoreInvariant(users[id := users[id].(profileImage := Some(image))], nextAdressId)
  {
  }
}

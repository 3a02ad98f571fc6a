/** The signed-in user's wardrobe: an in-memory list mirrored into the persistent slot
    named after that user's email. */
module UseWardrobe {
  import opened Wrappers
  import opened Strings
  import opened Storage
  import opened Types
  import Seqs
  import AuthContext

  const ItemsKeyPrefix: string := "ai-wardrobe-items-"
  const ItemIdPrefix: string := "item-"

  /** `getStorageKey`: the slot of the signed-in user, none when signed out. */
  function StorageKey(currentUser: Option<AuthContext.SessionUser>): (key: Option<string>)
    ensures key.None? <==> currentUser.None?
    ensures key.Some? ==> |ItemsKeyPrefix| <= |key.value| && key.value[..|ItemsKeyPrefix|] == ItemsKeyPrefix
    ensures key.Some? ==> key.value[|ItemsKeyPrefix|..] == currentUser.value.email
  {
    match currentUser
    case None => None
    case Some(u) => Some(ItemsKeyPrefix + u.email)
  }

  /** Different users never share a wardrobe slot. */
  lemma StorageKeyInjective(a: AuthContext.SessionUser, b: AuthContext.SessionUser)
    requires StorageKey(Some(a)) == StorageKey(Some(b))
    ensures a == b
  {
    var ka, kb := StorageKey(Some(a)).value, StorageKey(Some(b)).value;
    assert a.email == ka[|ItemsKeyPrefix|..] == kb[|ItemsKeyPrefix|..] == b.email;
  }

  /** No wardrobe slot coincides with the slot of the account list. */
  lemma StorageKeyIsNotUsersKey(u: AuthContext.SessionUser)
    ensures StorageKey(Some(u)).value != AuthContext.UsersStorageKey
  {
    var k := StorageKey(Some(u)).value;
    assert k[12] == 'i' && AuthContext.UsersStorageKey[12] == 'u';
  }

  /** Signing in with the same account typed in another case opens another wardrobe slot,
      because the session keeps the email as typed. */
  lemma StorageKeyFollowsTypedCase()
    ensures AuthContext.LoginSession([AuthContext.User("a@x", "pw")], AuthContext.Credentials("A@x", "pw")).Success?
    ensures StorageKey(Some(AuthContext.SessionUser("A@x"))) != StorageKey(Some(AuthContext.SessionUser("a@x")))
  {
    assert SameIgnoringCase("a@x", "A@x") by {
      assert ToLower("a@x") == "a@x";
      assert ToLower("A@x") == "a@x";
    }
    var k := StorageKey(Some(AuthContext.SessionUser("A@x"))).value;
    assert k[|ItemsKeyPrefix|] == 'A';
  }

  /** The slot at `key`; a key never written is absent. */
  function SlotAt(storage: map<string, Slot<seq<ClothingItem>>>, key: string): (slot: Slot<seq<ClothingItem>>)
    ensures key !in storage ==> slot == Missing
    ensures key in storage ==> slot == storage[key]
  {
    if key in storage then storage[key] else Missing
  }

  /** What the load effect reads from a slot: the stored list, or no items when the slot
      is absent or does not parse. */
  function LoadedItems(slot: Slot<seq<ClothingItem>>): (items: seq<ClothingItem>)
    ensures slot.Stored? ==> items == slot.value
    ensures !slot.Stored? ==> items == []
  {
    match slot
    case Stored(xs) => xs
    case _ => []
  }

  /** The id of an item added at time `idTime`, `token` standing for the random base-36 part. */
  function NewItemId(idTime: nat, token: string): (id: string)
    ensures |ItemIdPrefix| <= |id| && id[..|ItemIdPrefix|] == ItemIdPrefix
  {
    ItemIdPrefix + DecimalString(idTime) + "-" + token
  }

  /** The item built from a draft: the draft's fields plus a fresh id and creation time.
      The clock is read twice, once for the id and once for `createdAt`, so the two
      readings are separate inputs and may differ. */
  function NewItem(draft: ItemDraft, idTime: nat, createdAt: nat, token: string): (item: ClothingItem)
    ensures item.name == draft.name && item.category == draft.category
    ensures item.subCategory == draft.subCategory && item.imageUrl == draft.imageUrl
    ensures item.id == NewItemId(idTime, token) && item.createdAt == createdAt
  {
    ClothingItem(NewItemId(idTime, token), draft.name, draft.category, draft.subCategory, draft.imageUrl, createdAt)
  }

  /** `[newItem, ...prev]`: the new item first, the earlier items after it in their order. */
  function WithItemAdded(items: seq<ClothingItem>, item: ClothingItem): (r: seq<ClothingItem>)
    ensures |r| == |items| + 1 && r[0] == item && r[1..] == items
  {
    [item] + items
  }

  /** `prev.filter(item => item.id !== itemId)`. */
  function WithoutItem(items: seq<ClothingItem>, id: string): (r: seq<ClothingItem>)
    ensures forall i :: 0 <= i < |r| ==> r[i].id != id
  {
    var r := Seqs.Filter(items, (x: ClothingItem) => x.id != id);
    assert forall i :: 0 <= i < |r| ==> r[i].id != id by {
      forall i | 0 <= i < |r| ensures r[i].id != id {
        Seqs.FilterMembership(items, (x: ClothingItem) => x.id != id, r[i]);
      }
    }
    r
  }

  /** Removal keeps exactly the items with another id, each as often as before, in their
      original order. */
  lemma WithoutItemKeepsTheOthers(items: seq<ClothingItem>, id: string, x: ClothingItem)
    ensures multiset(WithoutItem(items, id))[x] == if x.id == id then 0 else multiset(items)[x]
    ensures Seqs.IsSubsequence(WithoutItem(items, id), items)
  {
    Seqs.FilterCounts(items, (y: ClothingItem) => y.id != id, x);
    Seqs.FilterIsSubsequence(items, (y: ClothingItem) => y.id != id);
  }

  /** Removing an id that no item has leaves the list unchanged. */
  lemma WithoutAbsentItem(items: seq<ClothingItem>, id: string)
    requires forall i :: 0 <= i < |items| ==> items[i].id != id
    ensures WithoutItem(items, id) == items
  {
    Seqs.FilterKeepsAll(items, (y: ClothingItem) => y.id != id);
  }

  /** Removing the same id twice is removing it once. */
  lemma WithoutItemIdempotent(items: seq<ClothingItem>, id: string)
    ensures WithoutItem(WithoutItem(items, id), id) == WithoutItem(items, id)
  {
    WithoutAbsentItem(WithoutItem(items, id), id);
  }

  /** Writing one user's wardrobe leaves every other user's slot as it was. */
  lemma SavingIsolatesUsers(storage: map<string, Slot<seq<ClothingItem>>>, a: AuthContext.SessionUser,
                            b: AuthContext.SessionUser, items: seq<ClothingItem>)
    requires a != b
    ensures SlotAt(storage[StorageKey(Some(a)).value := Stored(items)], StorageKey(Some(b)).value)
            == SlotAt(storage, StorageKey(Some(b)).value)
  {
    if StorageKey(Some(a)) == StorageKey(Some(b)) {
      StorageKeyInjective(a, b);
    }
  }

  /** The `useWardrobe` hook: the storage it reads and writes, the user it serves, and its
      `wardrobe` and `isLoaded` state. */
  class WardrobeHook {
    var storage: map<string, Slot<seq<ClothingItem>>>   // the wardrobe slots of localStorage
    var currentUser: Option<AuthContext.SessionUser>
    var wardrobe: seq<ClothingItem>
    var isLoaded: bool

    constructor (storage: map<string, Slot<seq<ClothingItem>>>, currentUser: Option<AuthContext.SessionUser>)
      ensures this.storage == storage && this.currentUser == currentUser
      ensures wardrobe == [] && !isLoaded
    {
      this.storage := storage;
      this.currentUser := currentUser;
      wardrobe := [];
      isLoaded := false;
    }

    /** The authentication context hands the hook another user (sign-in or sign-out). */
    method SetCurrentUser(user: Option<AuthContext.SessionUser>)
      modifies this`currentUser
      ensures currentUser == user
    {
      currentUser := user;
    }

    /** The load effect, run when the user changes. */
    method Load()
      modifies this`wardrobe, this`isLoaded
      ensures StorageKey(currentUser).None? ==> wardrobe == [] && isLoaded == old(isLoaded)
      ensures StorageKey(currentUser).Some? ==>
                wardrobe == LoadedItems(SlotAt(storage, StorageKey(currentUser).value)) && isLoaded
    {
      var key := StorageKey(currentUser);
      if key.None? {
        wardrobe := [];
        return;
      }
      wardrobe := LoadedItems(SlotAt(storage, key.value));
      isLoaded := true;
    }

    /** The save effect, run when the list or `isLoaded` changes: the whole list is written
      to the user's slot once loading has finished, and nothing else is touched. */
    method Save()
      modifies this`storage
      ensures isLoaded && currentUser.Some? ==>
                storage == old(storage)[StorageKey(currentUser).value := Stored(wardrobe)]
      ensures !(isLoaded && currentUser.Some?) ==> storage == old(storage)
      ensures forall k :: (currentUser.None? || k != StorageKey(currentUser).value) ==>
                SlotAt(storage, k) == SlotAt(old(storage), k)
    {
      var key := StorageKey(currentUser);
      if isLoaded && key.Some? {
        storage := storage[key.value := Stored(wardrobe)];
      }
    }

    /** `addItem`: prepend a new item built from the draft; nothing happens when signed out. */
    method AddItem(draft: ItemDraft, idTime: nat, createdAt: nat, token: string)
      modifies this`wardrobe
      ensures currentUser.None? ==> wardrobe == old(wardrobe)
      ensures currentUser.Some? ==> wardrobe == WithItemAdded(old(wardrobe), NewItem(draft, idTime, createdAt, token))
    {
      if currentUser.None? {
        return;
      }
      var item := NewItem(draft, idTime, createdAt, token);
      wardrobe := WithItemAdded(wardrobe, item);
    }

    /** `removeItem`: drop every item with this id; nothing happens when signed out. */
    method RemoveItem(id: string)
      modifies this`wardrobe
      ensures currentUser.None? ==> wardrobe == old(wardrobe)
      ensures currentUser.Some? ==> wardrobe == WithoutItem(old(wardrobe), id)
    {
      if currentUser.None? {
        return;
      }
      wardrobe := WithoutItem(wardrobe, id);
    }
  }

  /** Signing out and running the load effect leaves an empty wardrobe and no slot changed;
      adding and saving afterwards changes nothing either. */
  method SignedOutSession(hook: WardrobeHook, draft: ItemDraft, idTime: nat, createdAt: nat, token: string)
    modifies hook
    ensures hook.wardrobe == [] && hook.storage == old(hook.storage)
  {
    hook.SetCurrentUser(None);
    hook.Load();
    hook.AddItem(draft, idTime, createdAt, token);
    hook.Save();
  }

  /** Adding an item while signed in, then saving and reloading, yields the new item first
      followed by the earlier items. */
  method AddSaveReload(hook: WardrobeHook, draft: ItemDraft, idTime: nat, createdAt: nat, token: string)
    requires hook.currentUser.Some? && hook.isLoaded
    modifies hook
    ensures hook.wardrobe == [NewItem(draft, idTime, createdAt, token)] + old(hook.wardrobe)
    ensures hook.wardrobe[0].id[..|ItemIdPrefix|] == ItemIdPrefix
  {
    hook.AddItem(draft, idTime, createdAt, token);
    hook.Save();
    hook.Load();
  }
}

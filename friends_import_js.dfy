/**
 * `static/js/friends_import.js`: once signed in, the friends kept in the browser
 * are posted to the account, and the `friends` entry is dropped when the import succeeds.
 */
module FriendsImportJs {
  import opened Wrappers
  import opened Browser

  /**
   * `getFriends()`: a missing or empty entry reads as `[]` without parsing; the
   * text `null` parses, and its `.length` throws a TypeError; anything else unparsable throws.
   */
  function ReadFriends(item: Option<Stored>): (r: Result<seq<JsValue>, JsError>)
    ensures r == Success([]) <==> item.None? || item == Some(EmptyText) || item == Some(Array([]))
    ensures r.Success? && r.value != [] ==> item == Some(Array(r.value))
    ensures r.Failure? <==> item == Some(NullLiteral) || item == Some(Malformed)
  {
    match item
    case None => Success([])
    case Some(EmptyText) => Success([])
    case Some(NullLiteral) => Failure(TypeError)
    case Some(Malformed) => Failure(SyntaxError)
    case Some(Array(es)) => Success(es)
  }

  /** Only a stored empty array is cleaned up by the read. */
  predicate ReadCleansUp(item: Option<Stored>)
  {
    item == Some(Array([]))
  }

  /** Any non-empty list `setFriends` wrote is handed over as written. */
  lemma FriendsWrittenAreImported(es: seq<JsValue>)
    requires es != []
    ensures ReadFriends(Some(Array(JsSort(es)))) == Success(JsSort(es))
    ensures multiset(ReadFriends(Some(Array(JsSort(es)))).value) == multiset(es)
    ensures !ReadCleansUp(Some(Array(JsSort(es))))
  {
    assert |JsSort(es)| == |es| by {
      assert |multiset(JsSort(es))| == |multiset(es)|;
    }
  }

  /** The import page. */
  class ImportPage {
    const storage: LocalStorage
    var sent: Option<seq<JsValue>>
    var alertShown: bool
    var redirected: bool

    constructor (storage: LocalStorage)
      ensures this.storage == storage && sent.None? && !alertShown && !redirected
    {
      this.storage := storage;
      sent := None;
      alertShown := false;
      redirected := false;
    }

    /** `getFriends()`, which removes an empty stored list as it reads it. */
    method GetFriends() returns (r: Result<seq<JsValue>, JsError>)
      modifies storage
      ensures storage.works == old(storage.works)
      ensures r == if ReadCleansUp(old(storage.GetItem(FriendsKey))) && !storage.works then Failure(StorageError)
                   else ReadFriends(old(storage.GetItem(FriendsKey)))
      ensures storage.items == if ReadCleansUp(old(storage.GetItem(FriendsKey))) && storage.works
                               then old(storage.items) - {FriendsKey} else old(storage.items)
    {
      var item := storage.GetItem(FriendsKey);
      match item {
        case None => return Success([]);
        case Some(EmptyText) => return Success([]);
        case Some(NullLiteral) => return Failure(TypeError);
        case Some(Malformed) => return Failure(SyntaxError);
        case Some(Array(es)) =>
          if |es| == 0 {
            var ok := storage.RemoveItem(FriendsKey);
            if !ok {
              return Failure(StorageError);
            }
            return Success([]);
          }
          return Success(es);
      }
    }

    /** `init()`: only a supported storage holding a non-empty list leads to an import request carrying that list. */
    method Init() returns (r: Result<(), JsError>)
      modifies this`sent, storage
      ensures storage.works == old(storage.works)
      ensures !old(storage.works) ==> r == Success(()) && sent == old(sent) && storage.items == old(storage.items)
      ensures var read := ReadFriends(old(storage.GetItem(FriendsKey)));
        old(storage.works) ==>
          r == (if read.Failure? then Failure(read.error) else Success(()))
          && sent == (if read.Success? && read.value != [] then Some(read.value) else old(sent))
          && storage.GetItem(FriendsKey) == (if ReadCleansUp(old(storage.GetItem(FriendsKey))) then None
                                             else old(storage.GetItem(FriendsKey)))
    {
      var ok := storage.IsSupported();
      if !ok {
        return Success(());
      }
      var friends := GetFriends();
      if friends.Failure? {
        return Failure(friends.error);
      }
      r := Success(());
      if |friends.value| == 0 {
        return;
      }
      sent := Some(friends.value);
    }

    /** The `success` callback: a `success` status drops the entry and reloads the page, any other status alerts. */
    method OnImportResponse(succeeded: bool) returns (ok: bool)
      modifies this`alertShown, this`redirected, storage
      ensures storage.works == old(storage.works)
      ensures ok == (!succeeded || storage.works)
      ensures !succeeded ==> storage.items == old(storage.items) && alertShown && redirected == old(redirected)
      ensures succeeded ==> alertShown == old(alertShown)
      ensures succeeded ==> storage.items == (if storage.works then old(storage.items) - {FriendsKey} else old(storage.items))
      ensures succeeded ==> redirected == (old(redirected) || storage.works)
    {
      if !succeeded {
        alertShown := true;
        return true;
      }
      ok := storage.RemoveItem(FriendsKey);
      if ok {
        redirected := true;
      }
    }

    /** The `error` callback only alerts. */
    method OnImportError()
      modifies this`alertShown
      ensures alertShown
    {
      alertShown := true;
    }
  }
}

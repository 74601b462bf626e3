/** The records of package `schema` that the data layer reads and writes, and
    the required-field check of `User.Validate`. Password hashing is not part
    of this module (see README). */
module Schema {
  import opened Wrappers
  import opened Strings

  datatype User = User(id: int, userName: string, password: string, email: string,
                       firstName: string, lastName: string)

  datatype Venue = Venue(id: int, name: string, address: string, address2: string, city: string,
                         state: string, zip: string, country: string, image: string)

  datatype VenueList = VenueList(id: int, name: string)

  /** A request to put a venue on a list; each side is named by id or by name. */
  datatype VenueListAdd = VenueListAdd(venueId: int, venueName: string,
                                       venueListId: int, venueListName: string)

  datatype Menu = Menu(id: int, venueId: int)

  /** `price` is a float64 in the source; it is only stored and returned, never computed with. */
  datatype MenuItem = MenuItem(id: int, menuId: int, category: string, price: real, description: string)

  datatype UserFavorite = UserFavorite(id: int, userId: int, venueId: int)

  const ZeroUser := User(0, "", "", "", "", "")
  const ZeroVenue := Venue(0, "", "", "", "", "", "", "", "")
  const ZeroVenueList := VenueList(0, "")

  // ---------------------------------------------------------------------------
  // User.Validate

  /** The keys of the map Validate fills, in the order the source writes them. */
  const RequiredKeys: seq<string> := ["username", "password", "email"]

  const RequiredSuffix := " is a required field. "

  /** The map Validate builds: each required key to the user's value for it. */
  function RequiredFields(u: User): (m: map<string, string>)
    ensures m.Keys == {"username", "password", "email"}
  {
    map["username" := u.userName, "password" := u.password, "email" := u.email]
  }

  /** requiredFieldMessage: the field name followed by the fixed suffix. */
  function RequiredFieldMessage(field: string): (r: string)
    ensures |r| == |field| + |RequiredSuffix|
    ensures r[..|field|] == field && r[|field|..] == RequiredSuffix
  {
    field + RequiredSuffix
  }

  /** nonEmptyString: empty exactly when the value is present, else the field's message. */
  function NonEmptyString(key: string, value: string): (r: string)
    ensures r == "" <==> value != ""
    ensures value == "" ==> r == RequiredFieldMessage(key)
  {
    if value == "" then RequiredFieldMessage(key) else ""
  }

  /** The keys of `keys`, in that order, whose value in `fields` is empty. */
  function Missing(fields: map<string, string>, keys: seq<string>): seq<string>
    requires forall k :: k in keys ==> k in fields
  {
    if keys == [] then []
    else
      var last := keys[|keys| - 1];
      Missing(fields, keys[..|keys| - 1]) + (if fields[last] == "" then [last] else [])
  }

  /** One required-field message per key, concatenated in order. */
  function Messages(keys: seq<string>): string
  {
    if keys == [] then "" else Messages(keys[..|keys| - 1]) + RequiredFieldMessage(keys[|keys| - 1])
  }

  /** An order in which Go may range over the three-entry map: each key exactly once. */
  predicate IsRangeOrder(order: seq<string>)
  {
    multiset(order) == multiset(RequiredKeys)
  }

  /** User.Validate. Go ranges over the map in an unspecified order, so the
      order is a parameter here. The error is the concatenation of the
      messages of the missing fields in that order, with its one trailing
      space trimmed. */
  method Validate(u: User, order: seq<string>) returns (err: Option<string>)
    requires IsRangeOrder(order)
    ensures err.None? <==> u.userName != "" && u.password != "" && u.email != ""
    ensures err.Some? ==> err.value + " " == Messages(Missing(RequiredFields(u), order))
    ensures forall k :: multiset(Missing(RequiredFields(u), order))[k]
                        == if k in RequiredKeys && RequiredFields(u)[k] == "" then 1 else 0
  {
    var fields := RequiredFields(u);
    OrderCoversKeys(order);
    assert forall k :: k in order ==> k in fields;
    var errStr := "";
    var i := 0;
    while i < |order|
      invariant 0 <= i <= |order|
      invariant errStr == Messages(Missing(fields, order[..i]))
    {
      var k := order[i];
      var nes := NonEmptyString(k, fields[k]);
      MissingSnoc(fields, order, i);
      if nes != "" {
        errStr := errStr + nes;
      }
      i := i + 1;
    }
    assert order[..|order|] == order;
    var missing := Missing(fields, order);
    MissingCount(fields, order);
    RequiredKeysOnce();
    assert forall k :: multiset(missing)[k]
                       == if k in RequiredKeys && fields[k] == "" then 1 else 0 by {
      forall k ensures multiset(missing)[k] == if k in RequiredKeys && fields[k] == "" then 1 else 0 {
        assert multiset(order)[k] == multiset(RequiredKeys)[k];
        assert k in fields <==> k in RequiredKeys;
      }
    }
    if errStr != "" {
      MessagesEndInSpace(missing);
      err := Some(TrimSuffix(errStr, " "));
    } else {
      if missing != [] { MessagesNonEmpty(missing); }
      MissingEmpty(fields, order);
      err := None;
    }
  }

  /** One more loop step: the message of key order[i] is appended exactly when its value is empty. */
  lemma MissingSnoc(fields: map<string, string>, order: seq<string>, i: nat)
    requires i < |order| && forall k :: k in order ==> k in fields
    ensures Messages(Missing(fields, order[..i + 1]))
            == Messages(Missing(fields, order[..i])) + NonEmptyString(order[i], fields[order[i]])
  {
    assert order[..i + 1][..i] == order[..i];
    var m := Missing(fields, order[..i]);
    if fields[order[i]] == "" {
      assert (m + [order[i]])[..|m|] == m;
    } else {
      assert m + [] == m;
    }
  }

  lemma RequiredKeysOnce()
    ensures forall k :: multiset(RequiredKeys)[k] == if k in RequiredKeys then 1 else 0
  {
    assert multiset(RequiredKeys) == multiset{"username", "password", "email"};
  }

  lemma OrderCoversKeys(order: seq<string>)
    requires IsRangeOrder(order)
    ensures forall k :: k in order <==> k in RequiredKeys
  {
    forall k ensures k in order <==> k in RequiredKeys {
      assert k in order <==> k in multiset(order);
      assert k in RequiredKeys <==> k in multiset(RequiredKeys);
    }
  }

  /** Each key occurs in the missing list as often as it occurs in `keys`, if its value is empty, and never otherwise. */
  lemma {:induction false} MissingCount(fields: map<string, string>, keys: seq<string>)
    requires forall k :: k in keys ==> k in fields
    ensures forall k :: multiset(Missing(fields, keys))[k]
                        == if k in fields && fields[k] == "" then multiset(keys)[k] else 0
  {
    if keys != [] {
      var init, last := keys[..|keys| - 1], keys[|keys| - 1];
      MissingCount(fields, init);
      assert keys == init + [last];
    }
  }

  lemma {:induction false} MissingEmpty(fields: map<string, string>, order: seq<string>)
    requires IsRangeOrder(order)
    requires forall k :: k in order ==> k in fields
    requires Missing(fields, order) == []
    ensures fields["username"] != "" && fields["password"] != "" && fields["email"] != ""
  {
    MissingCount(fields, order);
    OrderCoversKeys(order);
    assert multiset(Missing(fields, order)) == multiset{};
    assert "username" in RequiredKeys && "password" in RequiredKeys && "email" in RequiredKeys;
  }

  lemma MessagesNonEmpty(keys: seq<string>)
    requires keys != []
    ensures Messages(keys) != ""
  {
    assert |Messages(keys)| >= |RequiredFieldMessage(keys[|keys| - 1])|;
  }

  lemma {:induction false} MessagesEndInSpace(keys: seq<string>)
    requires keys != []
    ensures HasSuffix(Messages(keys), " ")
  {
    var m := RequiredFieldMessage(keys[|keys| - 1]);
    assert m[|m| - 1] == ' ';
    assert Messages(keys)[|Messages(keys)| - 1..] == [m[|m| - 1]];
  }

  /** Where the message of `k` starts inside the concatenation. */
  lemma {:induction false} MessageIndex(keys: seq<string>, k: string) returns (i: nat)
    requires k in keys
    ensures i + |RequiredFieldMessage(k)| <= |Messages(keys)|
    ensures Messages(keys)[i..i + |RequiredFieldMessage(k)|] == RequiredFieldMessage(k)
  {
    var init, last := keys[..|keys| - 1], keys[|keys| - 1];
    assert keys == init + [last];
    if k == last {
      i := |Messages(init)|;
    } else {
      assert k in init;
      i := MessageIndex(init, k);
      assert Messages(keys)[..|Messages(init)|] == Messages(init);
    }
  }

  /** Trimming the final space leaves every message's text up to its period. */
  lemma TrimmedMessagesMention(keys: seq<string>, text: string, k: string)
    requires text + " " == Messages(keys) && k in keys
    ensures Contains(text, k + " is a required field.")
  {
    var all := Messages(keys);
    assert text == all[..|all| - 1];
    var i := MessageIndex(keys, k);
    var m := RequiredFieldMessage(k);
    var want := k + " is a required field.";
    assert m[..|m| - 1] == want;
    assert |want| == |m| - 1;
    assert text[i..i + |want|] == all[i..i + |want|];
    assert all[i..i + |want|] == all[i..i + |m|][..|m| - 1];
    assert OccursAt(text, want, i);
  }

  lemma TrimmedMessagesEnd(keys: seq<string>, text: string)
    requires text + " " == Messages(keys) && keys != []
    ensures |text| > 0 && text[|text| - 1] == '.'
  {
    var all := Messages(keys);
    var init := Messages(keys[..|keys| - 1]);
    var m := RequiredFieldMessage(keys[|keys| - 1]);
    assert all == init + m;
    assert text == all[..|all| - 1];
    assert all[|all| - 2] == m[|m| - 2] == '.';
  }

  /** The error text of Validate names every field whose value is empty, and
      ends in the period of the last message (never in a space). */
  lemma ValidateMessageContents(u: User, order: seq<string>, text: string)
    requires IsRangeOrder(order)
    requires text + " " == Messages(Missing(RequiredFields(u), order))
    ensures |text| > 0 && text[|text| - 1] == '.'
    ensures forall k :: k in RequiredKeys && RequiredFields(u)[k] == "" ==>
                          Contains(text, k + " is a required field.")
  {
    var fields := RequiredFields(u);
    OrderCoversKeys(order);
    var missing := Missing(fields, order);
    MissingCount(fields, order);
    RequiredKeysOnce();
    if missing != [] {
      TrimmedMessagesEnd(missing, text);
    }
    forall k | k in RequiredKeys && fields[k] == ""
      ensures Contains(text, k + " is a required field.")
    {
      assert multiset(order)[k] == multiset(RequiredKeys)[k] == 1;
      assert k in multiset(missing);
      TrimmedMessagesMention(missing, text, k);
    }
  }
}

/**
 saleor/checkout/utils.py: choosing and removing the delivery method of a checkout. Every function reports the fields
 it has written, and a caller saves just those.
 */
module DeliveryMethod {
  import opened Wrappers

  /** Addresses are compared by what they say; a copy is a row of its own. */
  datatype Address = Address(id: nat, data: string)

  /** The delivery part of a checkout row; prices in minor units. */
  datatype Row = Row(
    builtIn: Option<nat>, external: Option<string>, collectionPoint: Option<nat>, name: Option<string>,
    address: Option<Address>, saveAddress: bool, price: int)

  datatype Field = BuiltIn | External | CollectionPoint | Name | AddressField | SaveAddress | Price | LastChange

  datatype Shipping<T> = Shipping(id: T, name: string, price: int)

  // a reference counts as set when Python takes it for true

  predicate HasBuiltIn(r: Row) {
    r.builtIn.Some? && r.builtIn.value != 0
  }

  predicate HasExternal(r: Row) {
    r.external.Some? && r.external.value != ""
  }

  predicate HasCollectionPoint(r: Row) {
    r.collectionPoint.Some?
  }

  ghost predicate AtMostOneMode(r: Row) {
    !(HasBuiltIn(r) && HasExternal(r)) && !(HasBuiltIn(r) && HasCollectionPoint(r)) && !(HasExternal(r) && HasCollectionPoint(r))
  }

  /** The name is that of a shipping method that is set. */
  ghost predicate NameTied(r: Row) {
    r.name.Some? ==> HasBuiltIn(r) || HasExternal(r)
  }

  /** Every field in which the rows differ is in the list. */
  ghost predicate Covers(fields: seq<Field>, a: Row, b: Row) {
    && (a.builtIn != b.builtIn ==> BuiltIn in fields)
    && (a.external != b.external ==> External in fields)
    && (a.collectionPoint != b.collectionPoint ==> CollectionPoint in fields)
    && (a.name != b.name ==> Name in fields)
    && (a.address != b.address ==> AddressField in fields)
    && (a.saveAddress != b.saveAddress ==> SaveAddress in fields)
    && (a.price != b.price ==> Price in fields)
  }

  /** Saving with update_fields: the listed fields are written, the others are left as the database has them. */
  function Saved(db: Row, row: Row, fields: seq<Field>): Row {
    Row(
      if BuiltIn in fields then row.builtIn else db.builtIn,
      if External in fields then row.external else db.external,
      if CollectionPoint in fields then row.collectionPoint else db.collectionPoint,
      if Name in fields then row.name else db.name,
      if AddressField in fields then row.address else db.address,
      if SaveAddress in fields then row.saveAddress else db.saveAddress,
      if Price in fields then row.price else db.price)
  }

  /** Saving a list of fields brings the database up to date exactly if the list covers the changes. */
  lemma {:induction false} SavedExactly(db: Row, row: Row, fields: seq<Field>)
    ensures Saved(db, row, fields) == row <==> Covers(fields, db, row)
  {
  }

  lemma {:induction false} CoversChain(f: seq<Field>, g: seq<Field>, a: Row, b: Row, c: Row)
    requires Covers(f, a, b) && Covers(g, b, c)
    ensures Covers(f + g, a, c)
  {
  }

  /** The address of a collection point goes with it, and any other stays. */
  ghost predicate PointAddressGone(before: Row, after: Row) {
    if before.collectionPoint.Some? && before.address.Some? then after.address == None && after.saveAddress
    else after.address == before.address && after.saveAddress == before.saveAddress
  }

  class Checkout {
    var row: Row
    /** The external method kept in private metadata, the older way of storing it. */
    var inMetadata: bool
    /** The row as the database has it. */
    var stored: Row

    method RemoveFromMetadata()
      modifies this`inMetadata
      ensures !inMetadata
    {
      inMetadata := false;
    }

    method RemovePrice() returns (fields: seq<Field>)
      modifies this`row
      ensures row == old(row).(price := 0) && Covers(fields, old(row), row)
    {
      fields := [];
      if row.price != 0 {
        row := row.(price := 0);
        fields := [Price];
      }
    }

    /** With `save`, the fields are written at once, and the time of the change with them. */
    method RemoveExternal(save: bool) returns (fields: seq<Field>, saved: bool)
      modifies this
      ensures !inMetadata && saved == (save && HasExternal(old(row)))
      ensures row == Chosen(old(row), DropExternal)
      ensures Covers(fields, old(row), row) && (LastChange in fields <==> saved)
      ensures saved || stored == old(stored)
      ensures saved && old(stored) == old(row) ==> stored == row
    {
      fields, saved := [], false;
      if HasExternal(row) {
        row := row.(external := None);
        fields := fields + [External];
        if row.name.Some? {
          row := row.(name := None);
          fields := fields + [Name];
        }
        if save {
          fields := fields + [LastChange];
          Save(fields);
          SavedExactly(old(stored), row, fields);
          saved := true;
        }
      }
      RemoveFromMetadata();
    }

    method Save(fields: seq<Field>)
      modifies this`stored
      ensures stored == Saved(old(stored), row, fields)
    {
      stored := Saved(stored, row, fields);
    }

    method RemoveBuiltIn() returns (fields: seq<Field>)
      modifies this`row
      ensures row == Chosen(old(row), DropBuiltIn)
      ensures Covers(fields, old(row), row)
    {
      fields := [];
      if HasBuiltIn(row) {
        row := row.(builtIn := None);
        fields := fields + [BuiltIn];
        if row.name.Some? {
          row := row.(name := None);
          fields := fields + [Name];
        }
      }
    }

    /** The address of a collection point goes with it. */
    method RemoveClickAndCollect() returns (fields: seq<Field>)
      modifies this`row
      ensures row == Chosen(old(row), DropCollectionPoint) && Covers(fields, old(row), row)
    {
      fields := [];
      if HasCollectionPoint(row) {
        row := row.(collectionPoint := None);
        fields := fields + [CollectionPoint];
        if row.address.Some? {
          row := row.(address := None, saveAddress := true);
          fields := fields + [AddressField, SaveAddress];
        }
      }
    }

    method AssignPrice(price: int) returns (fields: seq<Field>)
      modifies this`row
      ensures row == old(row).(price := price) && Covers(fields, old(row), row)
    {
      fields := [];
      if row.price != price {
        row := row.(price := price);
        fields := [Price];
      }
    }

    method RemoveDeliveryMethod() returns (fields: seq<Field>)
      modifies this
      ensures stored == old(stored)
      ensures row == Chosen(old(row), Clear) && Covers(fields, old(row), row) && !inMetadata
      ensures row.price == 0 && row.collectionPoint == None && !HasBuiltIn(row) && !HasExternal(row)
      ensures row.name == if HasBuiltIn(old(row)) || HasExternal(old(row)) then None else old(row).name
      ensures PointAddressGone(old(row), row)
    {
      var a := RemovePrice();
      ghost var r1 := row;
      var b := RemoveBuiltIn();
      ghost var r2 := row;
      var c := RemoveClickAndCollect();
      ghost var r3 := row;
      var d, _ := RemoveExternal(false);
      fields := a + b + c + d;
      CoversChain(a, b, old(row), r1, r2);
      CoversChain(a + b, c, old(row), r2, r3);
      CoversChain(a + b + c, d, old(row), r3, row);
    }

    /** Saving just the reported fields brings the database up to date, also when nothing was there to remove. */
    method ClearDeliveryMethod(save: bool) returns (fields: seq<Field>)
      modifies this
      ensures row == Chosen(old(row), Clear) && Covers(fields, old(row), row)
      ensures !save ==> stored == old(stored)
      ensures save && old(stored) == old(row) ==> stored == row
    {
      fields := RemoveDeliveryMethod();
      SavedExactly(old(row), row, fields);
      if fields != [] {
        fields := fields + [LastChange];
        if save {
          SavedExactly(stored, row, fields);
          Save(fields);
        }
      }
    }

    method AssignExternal(chosen: Shipping<string>) returns (fields: seq<Field>)
      modifies this
      ensures stored == old(stored)
      ensures row == Chosen(old(row), ChooseExternal(chosen)) && Covers(fields, old(row), row) && !inMetadata
      ensures row.external == Some(chosen.id) && row.name == Some(chosen.name) && row.price == chosen.price
      ensures !HasBuiltIn(row) && row.collectionPoint == None
      ensures PointAddressGone(old(row), row)
    {
      ExternalChosen(row, chosen);
      var a := RemoveBuiltIn();
      ghost var r1 := row;
      var b := RemoveClickAndCollect();
      ghost var r2 := row;
      var c := AssignPrice(chosen.price);
      ghost var r3 := row;
      fields := a + b + c;
      CoversChain(a, b, old(row), r1, r2);
      CoversChain(a + b, c, old(row), r2, r3);
      RemoveFromMetadata();
      if row.external != Some(chosen.id) {
        row := row.(external := Some(chosen.id));
        fields := fields + [External];
      }
      if row.name != Some(chosen.name) {
        row := row.(name := Some(chosen.name));
        fields := fields + [Name];
      }
    }

    method AssignBuiltIn(chosen: Shipping<nat>) returns (fields: seq<Field>)
      modifies this
      ensures stored == old(stored)
      ensures row == Chosen(old(row), ChooseBuiltIn(chosen)) && Covers(fields, old(row), row) && !inMetadata
      ensures row.builtIn == Some(chosen.id) && row.name == Some(chosen.name) && row.price == chosen.price
      ensures !HasExternal(row) && row.collectionPoint == None
      ensures PointAddressGone(old(row), row)
    {
      var a, _ := RemoveExternal(false);
      ghost var r1 := row;
      var b := RemoveClickAndCollect();
      ghost var r2 := row;
      var c := AssignPrice(chosen.price);
      ghost var r3 := row;
      fields := a + b + c;
      CoversChain(a, b, old(row), r1, r2);
      CoversChain(a + b, c, old(row), r2, r3);
      if row.builtIn != Some(chosen.id) {
        row := row.(builtIn := Some(chosen.id));
        fields := fields + [BuiltIn];
      }
      if row.name != Some(chosen.name) {
        row := row.(name := Some(chosen.name));
        fields := fields + [Name];
      }
    }

    /** The checkout takes a copy of the address of the collection point unless it has that address already. */
    method AssignCollectionPoint(point: nat, pointAddress: Address, copyId: nat) returns (fields: seq<Field>)
      modifies this
      ensures stored == old(stored)
      ensures row == Chosen(old(row), ChooseCollectionPoint(point, pointAddress, copyId)) && Covers(fields, old(row), row) && !inMetadata
      ensures row.collectionPoint == Some(point) && row.price == 0 && !HasBuiltIn(row) && !HasExternal(row)
      ensures row.name == if HasBuiltIn(old(row)) || HasExternal(old(row)) then None else old(row).name
      ensures if old(row).address.Some? && old(row).address.value.data == pointAddress.data
              then row.address == old(row).address && row.saveAddress == old(row).saveAddress
              else row.address == Some(Address(copyId, pointAddress.data)) && !row.saveAddress
    {
      PointChosen(row, point, pointAddress, copyId);
      var a := RemovePrice();
      ghost var r1 := row;
      var b, _ := RemoveExternal(false);
      ghost var r2 := row;
      var c := RemoveBuiltIn();
      ghost var r3 := row;
      fields := a + b + c;
      CoversChain(a, b, old(row), r1, r2);
      CoversChain(a + b, c, old(row), r2, r3);
      if row.collectionPoint != Some(point) {
        row := row.(collectionPoint := Some(point));
        fields := fields + [CollectionPoint];
      }
      if row.address.None? || row.address.value.data != pointAddress.data {
        row := row.(address := Some(Address(copyId, pointAddress.data)), saveAddress := false);
        fields := fields + [AddressField, SaveAddress];
      }
    }
  }

  // ---- what each call makes of the row, and every sequence of calls

  datatype Choice =
    | ChooseBuiltIn(builtIn: Shipping<nat>)
    | ChooseExternal(external: Shipping<string>)
    | ChooseCollectionPoint(point: nat, pointAddress: Address, copyId: nat)
    | Clear
    | DropBuiltIn
    | DropExternal
    | DropCollectionPoint

  predicate KeepsBuiltIn(c: Choice) {
    c.DropExternal? || c.DropCollectionPoint?
  }

  predicate KeepsExternal(c: Choice) {
    c.DropBuiltIn? || c.DropCollectionPoint?
  }

  predicate KeepsCollectionPoint(c: Choice) {
    c.DropBuiltIn? || c.DropExternal?
  }

  /** Field by field: the specification of the calls. */
  function Chosen(r: Row, c: Choice): Row {
    var address := if !KeepsCollectionPoint(c) && !c.ChooseCollectionPoint? && HasCollectionPoint(r) then None else r.address;
    var here := c.ChooseCollectionPoint? && r.address.Some? && r.address.value.data == c.pointAddress.data;
    Row(
      if c.ChooseBuiltIn? then Some(c.builtIn.id) else if !KeepsBuiltIn(c) && HasBuiltIn(r) then None else r.builtIn,
      if c.ChooseExternal? then Some(c.external.id) else if !KeepsExternal(c) && HasExternal(r) then None else r.external,
      if c.ChooseCollectionPoint? then Some(c.point) else if !KeepsCollectionPoint(c) then None else r.collectionPoint,
      if c.ChooseBuiltIn? then Some(c.builtIn.name) else if c.ChooseExternal? then Some(c.external.name)
      else if (!KeepsBuiltIn(c) && HasBuiltIn(r)) || (!KeepsExternal(c) && HasExternal(r)) then None else r.name,
      if c.ChooseCollectionPoint? && !here then Some(Address(c.copyId, c.pointAddress.data)) else address,
      if c.ChooseCollectionPoint? then here && r.saveAddress else if address != r.address then true else r.saveAddress,
      if c.ChooseBuiltIn? then c.builtIn.price else if c.ChooseExternal? then c.external.price
      else if c.ChooseCollectionPoint? || c.Clear? then 0 else r.price)
  }

  lemma {:induction false} ExternalChosen(r: Row, chosen: Shipping<string>)
    ensures var n := Chosen(r, ChooseExternal(chosen));
            && n.external == Some(chosen.id) && n.name == Some(chosen.name) && n.price == chosen.price
            && !HasBuiltIn(n) && n.collectionPoint == None && PointAddressGone(r, n)
  {
  }

  lemma {:induction false} PointChosen(r: Row, point: nat, pointAddress: Address, copyId: nat)
    ensures var n := Chosen(r, ChooseCollectionPoint(point, pointAddress, copyId));
            && n.collectionPoint == Some(point) && n.price == 0 && !HasBuiltIn(n) && !HasExternal(n)
            && n.name == (if HasBuiltIn(r) || HasExternal(r) then None else r.name)
            && (if r.address.Some? && r.address.value.data == pointAddress.data
                then n.address == r.address && n.saveAddress == r.saveAddress
                else n.address == Some(Address(copyId, pointAddress.data)) && !n.saveAddress)
  {
  }

  function Run(r: Row, choices: seq<Choice>): Row
    decreases |choices|
  {
    if choices == [] then r else Run(Chosen(r, choices[0]), choices[1..])
  }

  /** A choice of a method, or clearing, leaves just that mode, whatever was there before. */
  lemma {:induction false} ChoiceDecides(r: Row, c: Choice)
    requires c.ChooseBuiltIn? || c.ChooseExternal? || c.ChooseCollectionPoint? || c.Clear?
    ensures var n := Chosen(r, c);
            && AtMostOneMode(n)
            && (HasBuiltIn(n) <==> c.ChooseBuiltIn? && c.builtIn.id != 0)
            && (HasExternal(n) <==> c.ChooseExternal? && c.external.id != "")
            && (HasCollectionPoint(n) <==> c.ChooseCollectionPoint?)
  {
  }

  /** Identifiers that Python takes for true, as those of stored shipping methods and of apps are. */
  predicate Proper(c: Choice) {
    (c.ChooseBuiltIn? ==> c.builtIn.id != 0) && (c.ChooseExternal? ==> c.external.id != "")
  }

  /** Over every sequence of calls at most one mode is set, and a method name only with its method. */
  lemma {:induction false} RunKeepsOneMode(r: Row, choices: seq<Choice>)
    requires AtMostOneMode(r)
    ensures AtMostOneMode(Run(r, choices))
    ensures NameTied(r) && (forall c | c in choices :: Proper(c)) ==> NameTied(Run(r, choices))
    decreases |choices|
  {
    if choices != [] {
      assert choices[0] in choices;
      RunKeepsOneMode(Chosen(r, choices[0]), choices[1..]);
    }
  }

  /** After a run that ends in a choice of method or in clearing, one mode at most, from every start. */
  lemma {:induction false} RunEndsInOneMode(r: Row, choices: seq<Choice>, c: Choice)
    requires c.ChooseBuiltIn? || c.ChooseExternal? || c.ChooseCollectionPoint? || c.Clear?
    ensures AtMostOneMode(Run(r, choices + [c]))
    decreases |choices|
  {
    if choices == [] {
      assert choices + [c] == [c] && [c][1..] == [];
      ChoiceDecides(r, c);
      assert Run(Chosen(r, c), []) == Chosen(r, c);
    } else {
      assert (choices + [c])[1..] == choices[1..] + [c];
      RunEndsInOneMode(Chosen(r, choices[0]), choices[1..], c);
    }
  }

  /** Repeating a call changes nothing more. */
  lemma {:induction false} ChoiceTwice(r: Row, c: Choice)
    ensures Chosen(Chosen(r, c), c) == Chosen(r, c)
  {
  }
}

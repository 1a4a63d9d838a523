/**
 * The bed list of the room screen: the handlers that add, edit and delete a
 * bed each build a new list from the current one and hand it back to the
 * parent, leaving the list they were given untouched. Form checks come
 * first; a rejected form produces no list (`None`).
 */
module BedManagement {
  import opened Wrappers

  /** A bed as the room screen shows it. */
  datatype Bed = Bed(
    id: string,
    roomId: string,
    bedNumber: string,
    isOccupied: bool,
    tenantName: Option<string>,
    tenantId: Option<string>,
    monthlyRent: int)

  /** The two text fields of the add/edit form. */
  datatype BedForm = BedForm(bedNumber: string, monthlyRent: string)

  /** Both required fields hold some text (an empty string counts as missing). */
  predicate Filled(form: BedForm) {
    form.bedNumber != [] && form.monthlyRent != []
  }

  /** No bed in `beds` carries `id`. */
  predicate IdAbsent(beds: seq<Bed>, id: string) {
    forall i | 0 <= i < |beds| :: beds[i].id != id
  }

  /**
   * Adding a bed: with both fields filled, the old list followed by one new
   * vacant bed of this room. `newId` is the generated id and `parseRent`
   * stands for the text-to-number conversion of the rent field.
   */
  function AddBed(beds: seq<Bed>, roomId: string, form: BedForm, newId: string, parseRent: string -> int): (r: Option<seq<Bed>>)
    ensures r.None? <==> !Filled(form)
    ensures r.Some? ==> |r.value| == |beds| + 1 && r.value[..|beds|] == beds
    ensures r.Some? ==>
      var added := r.value[|beds|];
      && added.id == newId && added.roomId == roomId && added.bedNumber == form.bedNumber
      && !added.isOccupied && added.tenantName.None? && added.tenantId.None?
      && added.monthlyRent == parseRent(form.monthlyRent)
  {
    if !Filled(form) then None
    else Some(beds + [Bed(newId, roomId, form.bedNumber, false, None, None, parseRent(form.monthlyRent))])
  }

  /** Every bed with id `editedId` gets the new number and rent; the rest are left alone. */
  function Rewrite(beds: seq<Bed>, editedId: string, bedNumber: string, monthlyRent: int): (r: seq<Bed>)
    ensures |r| == |beds|
    ensures forall i | 0 <= i < |r| && beds[i].id == editedId ::
      r[i] == beds[i].(bedNumber := bedNumber, monthlyRent := monthlyRent)
    ensures forall i | 0 <= i < |r| && beds[i].id != editedId :: r[i] == beds[i]
  {
    if beds == [] then []
    else
      var head := if beds[0].id == editedId then beds[0].(bedNumber := bedNumber, monthlyRent := monthlyRent) else beds[0];
      [head] + Rewrite(beds[1..], editedId, bedNumber, monthlyRent)
  }

  /**
   * Saving an edit: rejected when no bed is being edited or a field is
   * empty; otherwise the same list, in the same order, where the beds
   * sharing the edited bed's id take the form's number and rent and keep
   * everything else.
   */
  function UpdateBed(beds: seq<Bed>, editing: Option<Bed>, form: BedForm, parseRent: string -> int): (r: Option<seq<Bed>>)
    ensures r.None? <==> editing.None? || !Filled(form)
    ensures r.Some? ==> |r.value| == |beds|
    ensures r.Some? ==> forall i | 0 <= i < |beds| ::
      && r.value[i].id == beds[i].id && r.value[i].roomId == beds[i].roomId
      && r.value[i].isOccupied == beds[i].isOccupied
      && r.value[i].tenantId == beds[i].tenantId && r.value[i].tenantName == beds[i].tenantName
    ensures r.Some? ==> forall i | 0 <= i < |beds| && beds[i].id == editing.value.id ::
      r.value[i].bedNumber == form.bedNumber && r.value[i].monthlyRent == parseRent(form.monthlyRent)
    ensures r.Some? ==> forall i | 0 <= i < |beds| && beds[i].id != editing.value.id :: r.value[i] == beds[i]
  {
    if editing.None? || !Filled(form) then None
    else Some(Rewrite(beds, editing.value.id, form.bedNumber, parseRent(form.monthlyRent)))
  }

  /** Confirmed delete: the list without the beds whose id is `bedId`. */
  function DeleteBed(beds: seq<Bed>, bedId: string): (r: seq<Bed>)
    ensures |r| <= |beds|
    ensures forall b :: b in r <==> b in beds && b.id != bedId
  {
    if beds == [] then []
    else if beds[0].id == bedId then DeleteBed(beds[1..], bedId)
    else [beds[0]] + DeleteBed(beds[1..], bedId)
  }

  /** `xs` is `ys` with some elements dropped and the rest in their original order. */
  ghost predicate Subsequence<T>(xs: seq<T>, ys: seq<T>)
    decreases |ys|
  {
    if xs == [] then true
    else if ys == [] then false
    else (xs[0] == ys[0] && Subsequence(xs[1..], ys[1..])) || Subsequence(xs, ys[1..])
  }

  /** Delete keeps the surviving beds in their relative order. */
  lemma {:induction false} DeleteKeepsOrder(beds: seq<Bed>, bedId: string)
    ensures Subsequence(DeleteBed(beds, bedId), beds)
  {
    if beds != [] {
      DeleteKeepsOrder(beds[1..], bedId);
      var rest := DeleteBed(beds[1..], bedId);
      if beds[0].id != bedId {
        assert ([beds[0]] + rest)[1..] == rest;
      }
    }
  }

  /** Deleting from a concatenation deletes from each part. */
  lemma {:induction false} DeleteDistributes(xs: seq<Bed>, ys: seq<Bed>, bedId: string)
    ensures DeleteBed(xs + ys, bedId) == DeleteBed(xs, bedId) + DeleteBed(ys, bedId)
  {
    if xs == [] {
      assert xs + ys == ys;
    } else {
      assert (xs + ys)[0] == xs[0];
      assert (xs + ys)[1..] == xs[1..] + ys;
      DeleteDistributes(xs[1..], ys, bedId);
    }
  }

  /** Deleting an id no bed carries returns the list as it was. */
  lemma {:induction false} DeleteAbsent(beds: seq<Bed>, bedId: string)
    requires IdAbsent(beds, bedId)
    ensures DeleteBed(beds, bedId) == beds
  {
    if beds != [] {
      assert IdAbsent(beds[1..], bedId) by {
        assert forall i | 0 <= i < |beds[1..]| :: beds[1..][i] == beds[i + 1];
      }
      DeleteAbsent(beds[1..], bedId);
      assert [beds[0]] + beds[1..] == beds;
    }
  }

  /** The result of a delete carries no bed with that id. */
  lemma DeleteRemovesId(beds: seq<Bed>, bedId: string)
    ensures IdAbsent(DeleteBed(beds, bedId), bedId)
  {
    var r := DeleteBed(beds, bedId);
    assert forall i | 0 <= i < |r| :: r[i] in r;
  }

  /** Confirming the same delete twice gives what confirming it once gave. */
  lemma DeleteIdempotent(beds: seq<Bed>, bedId: string)
    ensures DeleteBed(DeleteBed(beds, bedId), bedId) == DeleteBed(beds, bedId)
  {
    DeleteRemovesId(beds, bedId);
    DeleteAbsent(DeleteBed(beds, bedId), bedId);
  }

  /** Adding a bed under a fresh id and then deleting that id gives the original list back. */
  lemma AddThenDelete(beds: seq<Bed>, roomId: string, form: BedForm, newId: string, parseRent: string -> int)
    requires Filled(form) && IdAbsent(beds, newId)
    ensures DeleteBed(AddBed(beds, roomId, form, newId, parseRent).value, newId) == beds
  {
    var added := AddBed(beds, roomId, form, newId, parseRent).value;
    assert added == beds + [added[|beds|]];
    DeleteDistributes(beds, [added[|beds|]], newId);
    DeleteAbsent(beds, newId);
  }

  /** Saving an edit for a bed that is no longer in the list changes nothing. */
  lemma UpdateAbsent(beds: seq<Bed>, editing: Bed, form: BedForm, parseRent: string -> int)
    requires Filled(form) && IdAbsent(beds, editing.id)
    ensures UpdateBed(beds, Some(editing), form, parseRent) == Some(beds)
  {
    var r := UpdateBed(beds, Some(editing), form, parseRent);
    assert r.Some? && |r.value| == |beds|;
    assert forall i | 0 <= i < |beds| :: beds[i].id != editing.id;
    assert forall i | 0 <= i < |beds| :: r.value[i] == beds[i];
    assert r.value == beds;
  }

  /** Saving an edit does not change which ids the list holds, nor their order. */
  lemma UpdateKeepsIds(beds: seq<Bed>, editing: Bed, form: BedForm, parseRent: string -> int)
    requires Filled(form)
    ensures Ids(UpdateBed(beds, Some(editing), form, parseRent).value) == Ids(beds)
  {
    var r := UpdateBed(beds, Some(editing), form, parseRent).value;
    assert forall i | 0 <= i < |beds| :: Ids(r)[i] == Ids(beds)[i];
  }

  /** The ids of a list, in order. */
  function Ids(beds: seq<Bed>): (r: seq<string>)
    ensures |r| == |beds| && forall i | 0 <= i < |beds| :: r[i] == beds[i].id
  {
    seq(|beds|, i requires 0 <= i < |beds| => beds[i].id)
  }
}

/**
 * The application component's state and the handlers that change it. Each
 * handler is one atomic transition of the state: the list of places the
 * user wants to visit, whether the deletion-confirmation modal is open, the
 * place recorded for deletion, and the pending update error.
 */
module App {
  import opened Wrappers
  import opened Places
  import opened Selection

  class AppState {
    /** The user's selection list, newest first. */
    var userPlaces: seq<Place>
    /** Whether the deletion-confirmation modal is shown. */
    var modalIsOpen: bool
    /** The place recorded when a removal is started; `None` until then. */
    var selected: Option<Place>
    /** The message of a failed update, shown in the error modal while present. */
    var updateError: Option<string>

    /** The object invariant: the selection list never holds two places with one id. */
    ghost predicate Valid()
      reads this
    {
      UniqueIds(userPlaces)
    }

    /** The error modal is open exactly while an update error is recorded. */
    predicate ErrorModalIsOpen()
      reads this
    {
      updateError.Some?
    }

    /** The initial state: nothing selected, no modal, no error. */
    constructor ()
      ensures Valid()
      ensures userPlaces == [] && !modalIsOpen && selected == None && updateError == None
    {
      userPlaces := [];
      modalIsOpen := false;
      selected := None;
      updateError := None;
    }

    /** Records `place` for deletion and opens the confirmation modal. */
    method StartRemovePlace(place: Place)
      requires Valid()
      modifies this
      ensures Valid()
      ensures selected == Some(place) && modalIsOpen
      ensures userPlaces == old(userPlaces) && updateError == old(updateError)
    {
      selected := Some(place);
      modalIsOpen := true;
    }

    /** Cancels the deletion: closes the modal and changes nothing else. */
    method StopRemovePlace()
      requires Valid()
      modifies this
      ensures Valid()
      ensures !modalIsOpen
      ensures userPlaces == old(userPlaces) && selected == old(selected)
      ensures updateError == old(updateError)
    {
      modalIsOpen := false;
    }

    /**
     * Adds `place` to the selection list: a place whose id is already
     * listed leaves the list alone, a new one goes to the front.
     */
    method SelectPlace(place: Place)
      requires Valid()
      modifies this
      ensures Valid()
      ensures userPlaces == AddPlace(old(userPlaces), place)
      ensures Contains(old(userPlaces), place.id) ==> userPlaces == old(userPlaces)
      ensures !Contains(old(userPlaces), place.id) ==> userPlaces == [place] + old(userPlaces)
      ensures modalIsOpen == old(modalIsOpen) && selected == old(selected)
      ensures updateError == old(updateError)
    {
      AddKeepsUnique(userPlaces, place);
      userPlaces := AddPlace(userPlaces, place);
    }

    /**
     * Confirms the deletion: drops every place carrying the recorded id
     * (none when no place was recorded) and closes the modal.
     */
    method ConfirmRemovePlace()
      requires Valid()
      modifies this
      ensures Valid()
      ensures userPlaces == Selection.RemovePlace(old(userPlaces), RecordedId(selected))
      ensures selected.Some? ==> forall x :: x in userPlaces ==> x.id != selected.value.id
      ensures selected.None? ==> userPlaces == old(userPlaces)
      ensures IsSubsequence(userPlaces, old(userPlaces))
      ensures !modalIsOpen
      ensures selected == old(selected) && updateError == old(updateError)
    {
      var target := RecordedId(selected);
      RemoveKeepsUnique(userPlaces, target);
      RemoveIsSubsequence(userPlaces, target);
      if target.None? {
        RemoveAbsent(userPlaces, target);
      }
      userPlaces := Selection.RemovePlace(userPlaces, target);
      modalIsOpen := false;
    }

    /** Dismisses the update error and changes nothing else. */
    method DismissError()
      requires Valid()
      modifies this
      ensures Valid()
      ensures updateError == None && !ErrorModalIsOpen()
      ensures userPlaces == old(userPlaces) && modalIsOpen == old(modalIsOpen)
      ensures selected == old(selected)
    {
      updateError := None;
    }
  }

  /** Catalogue entries p1, p2 and p3, used by the scenarios below. */
  function Waterfall(): Place {
    Place("p1", "Forest Waterfall",
      Image("", "A tranquil forest with a cascading waterfall amidst greenery."), 44.5588, -80.344)
  }

  function Dunes(): Place {
    Place("p2", "Sahara Desert Dunes",
      Image("", "Golden dunes stretching to the horizon in the Sahara Desert."), 25.0, 0.0)
  }

  function Peaks(): Place {
    Place("p3", "Himalayan Peaks",
      Image("", "The sun setting behind snow-capped peaks of majestic mountains."), 27.9881, 86.925)
  }

  /** Adding p2, p1, p3 and then p1 again: newest first, the duplicate ignored. */
  method SelectionScenario()
  {
    var a, b, c := Waterfall(), Dunes(), Peaks();
    var app := new AppState();
    app.SelectPlace(b);
    assert app.userPlaces == [b];
    assert !Contains([b], a.id);
    app.SelectPlace(a);
    assert app.userPlaces == [a, b];
    assert !Contains([a, b], c.id);
    app.SelectPlace(c);
    assert app.userPlaces == [c, a, b];
    assert [c, a, b][1] == a;
    app.SelectPlace(a);
    assert app.userPlaces == [c, a, b];
  }

  /** Starting, cancelling, then confirming the removal of p1 from [p1, p2]. */
  method RemovalScenario()
  {
    var a, b := Waterfall(), Dunes();
    var app := new AppState();
    app.SelectPlace(b);
    assert !Contains([b], a.id);
    app.SelectPlace(a);
    assert app.userPlaces == [a, b];
    app.StartRemovePlace(a);
    assert app.modalIsOpen;
    app.StopRemovePlace();
    assert !app.modalIsOpen && app.userPlaces == [a, b];
    app.StartRemovePlace(a);
    assert [a, b][1..] == [b] && [b][1..] == [];
    assert Selection.RemovePlace([a, b], Some(a.id)) == [b];
    app.ConfirmRemovePlace();
    assert !app.modalIsOpen && app.userPlaces == [b];
  }
}

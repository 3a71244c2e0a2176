/** The client's group store (client/src/stores/group.js): the office list, the office
    bindings shown on the page, the edit dialog's image lists and the confirmation dialog.
    The requests the store sends are recorded in `sent`; the answers, the refetches that
    follow them, toasts, previews' data URLs, focus and page style are not modelled. */
module GroupStore {
  import opened JsText

  /** A binding as the page holds it, its restaurant populated (null once that restaurant
      document is gone). */
  datatype LocalBinding = LocalBinding(id: nat, office: string, restaurant: Option<nat>, isActiveInOffice: bool)

  datatype File = File(name: string, mimeType: string)

  /** A preview the file reader produced for one file. */
  datatype Preview = Preview(src: string, file: File)

  /** The restaurant open in the edit dialog; its `menu` may be missing. */
  datatype EditedRestaurant = EditedRestaurant(id: nat, menu: Option<seq<string>>)

  /** The requests the actions send. */
  datatype Request =
    | PutSetting(groupId: string, lunchNotification: bool, currentOffice: string, officeOption: seq<string>)
    | PostBinding(groupId: string, office: string, restaurantId: nat, isActiveInOffice: bool)
    | PutBindingActive(bindingId: nat, isActiveInOffice: bool)

  /** The action the confirmation dialog will run. The dialogs for deleting a restaurant or
      a binding are not part of this model. */
  datatype Pending = RemoveOfficeAction(office: string)

  /** What `officeRestaurants.find(…)` gives for an office and a restaurant id: the index of
      the first binding of that office and restaurant, none, or the TypeError of reading
      `_id` of a null restaurant met first. */
  datatype Lookup = Found(index: nat) | Missing | NullRestaurant

  datatype DropOutcome = Skipped | AlreadyBound | Posted | Failed

  datatype FileChange = Crashed | TooMany | Loaded

  /** The store's state, grouped as its actions touch it: the group setting, the edit
      dialog and the confirmation dialog. */
  datatype SettingFields = SettingFields(groupId: Option<string>, lunchNotification: bool, currentOffice: string,
                                         officeOption: seq<string>)
  datatype EditFields = EditFields(show: bool, restaurant: Option<EditedRestaurant>, imagesToDelete: seq<string>,
                                   files: seq<File>, previews: seq<Preview>)
  datatype ConfirmFields = ConfirmFields(show: bool, pending: Option<Pending>, isConfirming: bool)

  /** The largest number of menu images a restaurant may have. */
  const MaxImages := 5

  /** `addOffice`'s new list: the trimmed name appended, unless it is blank or already there. */
  function AddedOffice(options: seq<string>, name: string): (r: seq<string>)
    ensures Trim(name) == "" || Trim(name) in options ==> r == options
    ensures Trim(name) != "" && Trim(name) !in options ==> r == options + [Trim(name)]
  {
    var trimmed := Trim(name);
    if trimmed == "" || trimmed in options then options else options + [trimmed]
  }

  /** No name appears twice. */
  predicate NoDuplicates(options: seq<string>) {
    forall i, j :: 0 <= i < j < |options| ==> options[i] != options[j]
  }

  /** Every name is trimmed and not empty. */
  predicate AllTrimmed(options: seq<string>) {
    forall k :: 0 <= k < |options| ==> options[k] != "" && Trim(options[k]) == options[k]
  }

  /** Adding keeps a list free of duplicates and of untrimmed or empty names, and adding the
      same name a second time changes nothing. */
  lemma AddOfficeKeepsList(options: seq<string>, name: string)
    requires NoDuplicates(options) && AllTrimmed(options)
    ensures NoDuplicates(AddedOffice(options, name)) && AllTrimmed(AddedOffice(options, name))
    ensures AddedOffice(AddedOffice(options, name), name) == AddedOffice(options, name)
    ensures Trim(name) != "" ==> Trim(name) in AddedOffice(options, name)
  {
    var t := Trim(name);
    if t != "" && t !in options {
      var r := options + [t];
      assert AddedOffice(options, name) == r;
      TrimIdempotent(name);
      forall i, j | 0 <= i < j < |r| ensures r[i] != r[j] {
        if j == |options| {
          assert r[i] == options[i];
        } else {
          assert r[i] == options[i] && r[j] == options[j];
        }
      }
      forall k | 0 <= k < |r| ensures r[k] != "" && Trim(r[k]) == r[k] {
        if k < |options| {
          assert r[k] == options[k];
        }
      }
      assert t in r by { assert r[|options|] == t; }
    }
  }

  /** Removal after confirmation drops every occurrence and keeps the rest in order. */
  lemma RemoveOfficeKeepsOthers(a: seq<string>, b: seq<string>, office: string)
    requires office !in b
    ensures RemoveAll(a + [office] + b, office) == RemoveAll(a, office) + b
    ensures office !in RemoveAll(a + [office] + b, office)
  {
    RemoveAllAppend(a + [office], b, office);
    RemoveAllAppend(a, [office], office);
    RemoveAllOfAbsent(b, office);
  }

  lemma {:induction false} RemoveAllOfAbsent(a: seq<string>, x: string)
    requires x !in a
    ensures RemoveAll(a, x) == a
  {
    if a != [] {
      RemoveAllOfAbsent(a[1..], x);
    }
  }

  /** `binding.office === office && binding.restaurantId._id === id`, evaluated left to right. */
  function FindBinding(bs: seq<LocalBinding>, office: string, id: nat): (r: Lookup)
    ensures r.Found? ==> r.index < |bs| && bs[r.index].office == office && bs[r.index].restaurant == Some(id)
    ensures r.Found? ==> forall j :: 0 <= j < r.index ==>
      bs[j].office != office || (bs[j].restaurant.Some? && bs[j].restaurant.value != id)
    ensures r == Missing <==>
      forall j :: 0 <= j < |bs| ==> bs[j].office != office || (bs[j].restaurant.Some? && bs[j].restaurant.value != id)
  {
    if bs == [] then Missing
    else if bs[0].office == office && bs[0].restaurant.None? then NullRestaurant
    else if bs[0].office == office && bs[0].restaurant.value == id then Found(0)
    else
      var r := FindBinding(bs[1..], office, id);
      if r.Found? then Found(r.index + 1) else r
  }

  /** With every restaurant present the search cannot fail, and it finds a binding exactly
      when the office already has the restaurant. */
  lemma FindResolved(bs: seq<LocalBinding>, office: string, id: nat)
    requires forall k :: 0 <= k < |bs| ==> bs[k].restaurant.Some?
    ensures FindBinding(bs, office, id) != NullRestaurant
    ensures FindBinding(bs, office, id).Found? <==>
      exists k :: 0 <= k < |bs| && bs[k].office == office && bs[k].restaurant == Some(id)
  {
    if FindBinding(bs, office, id) == NullRestaurant {
      NullNeedsNull(bs, office, id);
    }
  }

  lemma {:induction false} NullNeedsNull(bs: seq<LocalBinding>, office: string, id: nat)
    requires FindBinding(bs, office, id) == NullRestaurant
    ensures exists k :: 0 <= k < |bs| && bs[k].restaurant.None?
  {
    if !(bs[0].office == office && bs[0].restaurant.None?) {
      NullNeedsNull(bs[1..], office, id);
      var k :| 0 <= k < |bs[1..]| && bs[1..][k].restaurant.None?;
      assert bs[k + 1].restaurant.None?;
    }
  }

  predicate IsImage(f: File) {
    StartsWith(f.mimeType, "image/")
  }

  /** The files of `files` that are images, in order. */
  function ImageFiles(files: seq<File>): (r: seq<File>)
    ensures |r| <= |files|
    ensures forall f :: f in r ==> IsImage(f)
  {
    if files == [] then []
    else
      var rest := ImageFiles(files[1..]);
      if IsImage(files[0]) then [files[0]] + rest else rest
  }

  /** Every image of the batch is kept, as often as it was chosen, and nothing else. */
  lemma {:induction false} ImageFilesCounts(files: seq<File>, f: File)
    ensures multiset(ImageFiles(files))[f] == if IsImage(f) then multiset(files)[f] else 0
  {
    if files != [] {
      assert files == [files[0]] + files[1..];
      ImageFilesCounts(files[1..], f);
    }
  }

  lemma {:induction false} ImageFilesAppend(a: seq<File>, f: File)
    ensures ImageFiles(a + [f]) == ImageFiles(a) + (if IsImage(f) then [f] else [])
  {
    if a == [] {
      assert a + [f] == [f];
      assert [f][1..] == [];
    } else {
      assert (a + [f])[0] == a[0] && (a + [f])[1..] == a[1..] + [f];
      ImageFilesAppend(a[1..], f);
    }
  }

  class Store {
    var groupId: Option<string>
    var lunchNotification: bool
    var currentOffice: string
    var officeOption: seq<string>
    var officeRestaurants: seq<LocalBinding>
    var editShow: bool
    var editRestaurant: Option<EditedRestaurant>
    var imagesToDelete: seq<string>
    var editMenuFiles: seq<File>
    var editMenuPreviews: seq<Preview>
    var confirmShow: bool
    var confirmPending: Option<Pending>
    var isConfirming: bool
    var sent: seq<Request>

    /** The fields `saveGroupSetting` sends. */
    function Setting(): SettingFields
      reads this
    {
      SettingFields(groupId, lunchNotification, currentOffice, officeOption)
    }

    /** The edit dialog's fields. */
    function EditDialog(): EditFields
      reads this
    {
      EditFields(editShow, editRestaurant, imagesToDelete, editMenuFiles, editMenuPreviews)
    }

    /** The confirmation dialog's fields. */
    function ConfirmDialog(): ConfirmFields
      reads this
    {
      ConfirmFields(confirmShow, confirmPending, isConfirming)
    }

    /** The state the store starts in. */
    constructor ()
      ensures groupId.None? && !lunchNotification && currentOffice == "" && officeOption == []
      ensures officeRestaurants == [] && !editShow && editRestaurant.None?
      ensures imagesToDelete == [] && editMenuFiles == [] && editMenuPreviews == []
      ensures !confirmShow && confirmPending.None? && !isConfirming && sent == []
    {
      groupId, lunchNotification, currentOffice, officeOption := None, false, "", [];
      officeRestaurants, editShow, editRestaurant := [], false, None;
      imagesToDelete, editMenuFiles, editMenuPreviews := [], [], [];
      confirmShow, confirmPending, isConfirming, sent := false, None, false, [];
    }

    /** The request `saveGroupSetting` sends for the current state, if the group is known. */
    function SaveRequest(): (r: seq<Request>)
      reads this
      ensures |r| <= 1
      ensures r != [] <==> Truthy(groupId)
      ensures r != [] ==> r[0] == PutSetting(groupId.value, lunchNotification, currentOffice, officeOption)
    {
      if Truthy(groupId) then [PutSetting(groupId.value, lunchNotification, currentOffice, officeOption)] else []
    }

    /** `saveGroupSetting`: the whole setting goes out in one PUT. */
    method SaveGroupSetting()
      modifies this
      ensures sent == old(sent) + old(SaveRequest())
      ensures Setting() == old(Setting()) && officeRestaurants == old(officeRestaurants)
      ensures EditDialog() == old(EditDialog()) && ConfirmDialog() == old(ConfirmDialog())
    {
      sent := sent + SaveRequest();
    }

    method AddOffice(officeName: string)
      modifies this
      ensures officeOption == AddedOffice(old(officeOption), officeName)
      ensures officeOption == old(officeOption) ==> sent == old(sent)
      ensures officeOption != old(officeOption) ==> sent == old(sent) + SaveRequest()
      ensures groupId == old(groupId) && currentOffice == old(currentOffice)
      ensures lunchNotification == old(lunchNotification) && officeRestaurants == old(officeRestaurants)
      ensures EditDialog() == old(EditDialog()) && ConfirmDialog() == old(ConfirmDialog())
    {
      var trimmed := Trim(officeName);
      if trimmed == "" {
        return;
      }
      if trimmed in officeOption {
        return;
      }
      officeOption := officeOption + [trimmed];
      SaveGroupSetting();
    }

    /** `removeOffice`: refused for the current office, otherwise the removal waits for the
        confirmation dialog. */
    method RemoveOffice(officeName: string)
      modifies this
      ensures officeName == old(currentOffice) ==> confirmPending == old(confirmPending) && confirmShow == old(confirmShow)
      ensures officeName != old(currentOffice) ==> confirmPending == Some(RemoveOfficeAction(officeName)) && confirmShow
      ensures officeOption == old(officeOption) && currentOffice == old(currentOffice) && sent == old(sent)
      ensures groupId == old(groupId) && lunchNotification == old(lunchNotification)
      ensures isConfirming == old(isConfirming)
      ensures officeRestaurants == old(officeRestaurants) && EditDialog() == old(EditDialog())
    {
      if officeName == currentOffice {
        return;
      }
      confirmPending := Some(RemoveOfficeAction(officeName));
      confirmShow := true;
    }

    /** `handleConfirm`: runs the pending action, if any, then closes the dialog. */
    method HandleConfirm()
      modifies this
      ensures !confirmShow && confirmPending.None? && !isConfirming
      ensures old(confirmPending).None? ==> officeOption == old(officeOption) && sent == old(sent)
      ensures old(confirmPending).Some? ==>
        && officeOption == RemoveAll(old(officeOption), old(confirmPending).value.office)
        && sent == old(sent) + SaveRequest()
      ensures groupId == old(groupId) && currentOffice == old(currentOffice)
      ensures lunchNotification == old(lunchNotification)
      ensures officeRestaurants == old(officeRestaurants) && EditDialog() == old(EditDialog())
    {
      if confirmPending.Some? {
        isConfirming := true;
        match confirmPending.value {
          case RemoveOfficeAction(office) =>
            officeOption := RemoveAll(officeOption, office);
            SaveGroupSetting();
        }
        isConfirming := false;
      }
      CloseConfirmModal();
    }

    method CloseConfirmModal()
      modifies this
      ensures !confirmShow && confirmPending.None? && !isConfirming
      ensures officeOption == old(officeOption) && sent == old(sent)
      ensures groupId == old(groupId) && currentOffice == old(currentOffice)
      ensures lunchNotification == old(lunchNotification)
      ensures officeRestaurants == old(officeRestaurants) && EditDialog() == old(EditDialog())
    {
      confirmShow, confirmPending, isConfirming := false, None, false;
    }

    /** `setDefaultOffice`: any office is accepted, listed or not. */
    method SetDefaultOffice(office: string)
      modifies this
      ensures currentOffice == office && officeOption == old(officeOption)
      ensures sent == old(sent) + SaveRequest()
      ensures groupId == old(groupId) && lunchNotification == old(lunchNotification)
      ensures officeRestaurants == old(officeRestaurants)
      ensures EditDialog() == old(EditDialog()) && ConfirmDialog() == old(ConfirmDialog())
    {
      currentOffice := office;
      SaveGroupSetting();
    }

    /** `dropRestaurant(office, restaurant)`, `restaurant` given by its id. */
    method DropRestaurant(office: string, restaurant: Option<nat>) returns (outcome: DropOutcome)
      modifies this
      ensures !Truthy(old(groupId)) || restaurant.None? <==> outcome == Skipped
      ensures outcome == Posted <==>
        Truthy(groupId) && restaurant.Some? && FindBinding(officeRestaurants, office, restaurant.value) == Missing
      ensures outcome == AlreadyBound ==> FindBinding(officeRestaurants, office, restaurant.value).Found?
      ensures outcome == Failed ==> FindBinding(officeRestaurants, office, restaurant.value) == NullRestaurant
      ensures outcome == Posted ==> sent == old(sent) + [PostBinding(groupId.value, office, restaurant.value, true)]
      ensures outcome != Posted ==> sent == old(sent)
      ensures Setting() == old(Setting()) && officeRestaurants == old(officeRestaurants)
      ensures EditDialog() == old(EditDialog()) && ConfirmDialog() == old(ConfirmDialog())
    {
      if !Truthy(groupId) || restaurant.None? {
        return Skipped;
      }
      var existing := FindBinding(officeRestaurants, office, restaurant.value);
      if existing.Found? {
        return AlreadyBound;
      }
      if existing == NullRestaurant {
        return Failed;
      }
      sent := sent + [PostBinding(groupId.value, office, restaurant.value, true)];
      outcome := Posted;
    }

    /** `toggleOfficeRestaurant(binding)` for the binding at `k`: the flipped flag is sent,
        and the page flips its copy only if the request succeeded (`accepted`). */
    method ToggleOfficeRestaurant(k: nat, accepted: bool)
      requires k < |officeRestaurants|
      modifies this
      ensures var b := old(officeRestaurants[k]);
        && sent == old(sent) + [PutBindingActive(b.id, !b.isActiveInOffice)]
        && officeRestaurants == if accepted then old(officeRestaurants)[k := b.(isActiveInOffice := !b.isActiveInOffice)]
                                else old(officeRestaurants)
      ensures Setting() == old(Setting())
      ensures EditDialog() == old(EditDialog()) && ConfirmDialog() == old(ConfirmDialog())
    {
      var b := officeRestaurants[k];
      sent := sent + [PutBindingActive(b.id, !b.isActiveInOffice)];
      if accepted {
        officeRestaurants := officeRestaurants[k := b.(isActiveInOffice := !b.isActiveInOffice)];
      }
    }

    /** `removeEditImage(index)`: the image at `index` (counted from the end when negative)
        moves from the menu to the end of `imagesToDelete`. */
    method RemoveEditImage(index: int)
      modifies this
      ensures old(editRestaurant).None? || old(editRestaurant).value.menu.None? ==>
        editRestaurant == old(editRestaurant) && imagesToDelete == old(imagesToDelete)
      ensures old(editRestaurant).Some? && old(editRestaurant).value.menu.Some? ==>
        var split := SpliceOne(old(editRestaurant).value.menu.value, index);
        && editRestaurant == Some(old(editRestaurant).value.(menu := Some(split.0)))
        && imagesToDelete == old(imagesToDelete) + split.1
      ensures editMenuFiles == old(editMenuFiles) && editMenuPreviews == old(editMenuPreviews)
      ensures editShow == old(editShow) && sent == old(sent)
      ensures Setting() == old(Setting()) && officeRestaurants == old(officeRestaurants)
      ensures ConfirmDialog() == old(ConfirmDialog())
    {
      if editRestaurant.Some? && editRestaurant.value.menu.Some? {
        var split := SpliceOne(editRestaurant.value.menu.value, index);
        editRestaurant := Some(editRestaurant.value.(menu := Some(split.0)));
        if |split.1| > 0 {
          imagesToDelete := imagesToDelete + [split.1[0]];
        }
      }
    }

    /** `handleEditFileChange`: the batch is refused when the existing and the new files
        (images or not) would exceed five; otherwise the chosen images replace the new-file
        list, in order, and their previews start afresh. */
    method HandleEditFileChange(files: seq<File>) returns (result: FileChange)
      modifies this
      ensures result == Crashed <==> old(editRestaurant).None?
      ensures result == TooMany <==>
        old(editRestaurant).Some? && |Default(old(editRestaurant).value.menu, [])| + |files| > MaxImages
      ensures result != Loaded ==> editMenuFiles == old(editMenuFiles) && editMenuPreviews == old(editMenuPreviews)
      ensures result == Loaded ==> editMenuFiles == ImageFiles(files) && editMenuPreviews == []
      ensures editRestaurant == old(editRestaurant) && imagesToDelete == old(imagesToDelete)
      ensures editShow == old(editShow) && sent == old(sent)
      ensures Setting() == old(Setting()) && officeRestaurants == old(officeRestaurants)
      ensures ConfirmDialog() == old(ConfirmDialog())
    {
      if editRestaurant.None? {
        return Crashed;
      }
      var currentImageCount := if editRestaurant.value.menu.Some? then |editRestaurant.value.menu.value| else 0;
      if currentImageCount + |files| > MaxImages {
        return TooMany;
      }
      editMenuFiles := [];
      editMenuPreviews := [];
      var i := 0;
      while i < |files|
        invariant 0 <= i <= |files|
        invariant editMenuFiles == ImageFiles(files[..i])
        invariant editMenuPreviews == []
        invariant editRestaurant == old(editRestaurant) && imagesToDelete == old(imagesToDelete)
        invariant editShow == old(editShow) && sent == old(sent)
        invariant Setting() == old(Setting()) && officeRestaurants == old(officeRestaurants)
        invariant ConfirmDialog() == old(ConfirmDialog())
      {
        ImageFilesAppend(files[..i], files[i]);
        assert files[..i + 1] == files[..i] + [files[i]];
        if IsImage(files[i]) {
          editMenuFiles := editMenuFiles + [files[i]];
        }
        i := i + 1;
      }
      assert files[..i] == files;
      result := Loaded;
    }

    /** The file reader's `onload` for one file: its preview is appended. */
    method PreviewLoaded(src: string, file: File)
      modifies this
      ensures editMenuPreviews == old(editMenuPreviews) + [Preview(src, file)]
      ensures editMenuFiles == old(editMenuFiles) && editRestaurant == old(editRestaurant)
      ensures editShow == old(editShow) && imagesToDelete == old(imagesToDelete) && sent == old(sent)
      ensures Setting() == old(Setting()) && officeRestaurants == old(officeRestaurants)
      ensures ConfirmDialog() == old(ConfirmDialog())
    {
      editMenuPreviews := editMenuPreviews + [Preview(src, file)];
    }

    /** `removeNewEditImage(index)`: no index clears both lists; an index removes that
        position from both. */
    method RemoveNewEditImage(index: Option<int>)
      modifies this
      ensures index.None? ==> editMenuFiles == [] && editMenuPreviews == []
      ensures index.Some? ==>
        && editMenuFiles == SpliceOne(old(editMenuFiles), index.value).0
        && editMenuPreviews == SpliceOne(old(editMenuPreviews), index.value).0
      ensures |old(editMenuFiles)| == |old(editMenuPreviews)| ==> |editMenuFiles| == |editMenuPreviews|
      ensures editRestaurant == old(editRestaurant) && imagesToDelete == old(imagesToDelete)
      ensures editShow == old(editShow) && sent == old(sent)
      ensures Setting() == old(Setting()) && officeRestaurants == old(officeRestaurants)
      ensures ConfirmDialog() == old(ConfirmDialog())
    {
      if index.None? {
        editMenuFiles, editMenuPreviews := [], [];
      } else {
        editMenuFiles := SpliceOne(editMenuFiles, index.value).0;
        editMenuPreviews := SpliceOne(editMenuPreviews, index.value).0;
      }
    }

    /** `closeEditModal`: the dialog and its lists are reset. */
    method CloseEditModal()
      modifies this
      ensures !editShow && editRestaurant.None?
      ensures imagesToDelete == [] && editMenuFiles == [] && editMenuPreviews == []
      ensures sent == old(sent)
      ensures Setting() == old(Setting()) && officeRestaurants == old(officeRestaurants)
      ensures ConfirmDialog() == old(ConfirmDialog())
    {
      editShow, editRestaurant := false, None;
      imagesToDelete, editMenuFiles, editMenuPreviews := [], [], [];
    }
  }

  /** Removing a menu image keeps the total of kept and to-be-deleted images, and an index
      past the end removes nothing. */
  lemma RemoveImageKeepsTotal(menu: seq<string>, toDelete: seq<string>, index: int)
    ensures var split := SpliceOne(menu, index);
      |split.0| + |toDelete + split.1| == |menu| + |toDelete|
      && multiset(split.0) + multiset(toDelete + split.1) == multiset(menu) + multiset(toDelete)
    ensures index >= |menu| ==> SpliceOne(menu, index) == (menu, [])
  {
  }

  /** Removing the same position from two lists of equal length keeps them equal in length,
      and the pairs in step. */
  lemma RemoveNewKeepsPairs(files: seq<File>, previews: seq<Preview>, index: int)
    requires |files| == |previews|
    requires forall k :: 0 <= k < |files| ==> previews[k].file == files[k]
    ensures var f, p := SpliceOne(files, index).0, SpliceOne(previews, index).0;
      |f| == |p| && forall k :: 0 <= k < |f| ==> p[k].file == f[k]
  {
    var s := SpliceStart(|files|, index);
    var f, p := SpliceOne(files, index).0, SpliceOne(previews, index).0;
    forall k | 0 <= k < |f| ensures p[k].file == f[k] {
      if s < |files| {
        if k < s {
          assert f[k] == files[k] && p[k] == previews[k];
        } else {
          assert f[k] == files[k + 1] && p[k] == previews[k + 1];
        }
      }
    }
  }

  /** An accepted batch leaves room for it: existing images plus new images stay within five. */
  lemma AcceptedBatchWithinCap(menuCount: nat, files: seq<File>)
    requires menuCount + |files| <= MaxImages
    ensures menuCount + |ImageFiles(files)| <= MaxImages
  {
  }
}

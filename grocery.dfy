/** The grocery list page (React-Project/LabMst/my-react-app/src/App.jsx): a list of items
    and the text of the input box. */
module GroceryApp {
  import opened Strings

  datatype GroceryState = GroceryState(items: seq<string>, newItem: string)

  /** `addItem`: a blank input changes nothing; otherwise the trimmed input is added
      and the box is cleared. */
  function AddItem(st: GroceryState): GroceryState {
    var trimmed := Trim(st.newItem);
    if trimmed == "" then st
    else GroceryState(st.items + [trimmed], "")
  }

  /** `onKeyDown`: Enter adds, any other key does nothing. */
  function OnKeyDown(st: GroceryState, key: string): GroceryState {
    if key == "Enter" then AddItem(st) else st
  }

  lemma AddItemFacts(st: GroceryState)
    ensures var r := AddItem(st);
      && (IsBlank(st.newItem) ==> r == st)
      && (!IsBlank(st.newItem) ==>
            && |r.items| == |st.items| + 1
            && r.items[..|st.items|] == st.items
            && r.items[|st.items|] == Trim(st.newItem)
            && r.newItem == "")
  {
    var r := AddItem(st);
    if !IsBlank(st.newItem) {
      assert r.items[..|st.items|] == st.items;
    }
  }

  /** Items that are trimmed and non-empty stay so: the list never receives a blank or
      padded entry. */
  predicate CleanItems(items: seq<string>) {
    forall i :: 0 <= i < |items| ==> items[i] != "" && IsTrimmed(items[i])
  }

  lemma AddItemKeepsClean(st: GroceryState)
    requires CleanItems(st.items)
    ensures CleanItems(AddItem(st).items)
  {
    var trimmed := Trim(st.newItem);
    if trimmed != "" {
      var items := st.items + [trimmed];
      assert AddItem(st).items == items;
      forall i | 0 <= i < |items| ensures items[i] != "" && IsTrimmed(items[i]) {
        if i < |st.items| {
          assert items[i] == st.items[i];
        }
      }
    }
  }

  /** Adding what is already in the box a second time adds nothing more: the box is
      empty after the first. */
  lemma AddItemTwice(st: GroceryState)
    ensures AddItem(AddItem(st)) == AddItem(st)
  {
    var r := AddItem(st);
    if !IsBlank(st.newItem) {
      assert IsBlank(r.newItem);
    }
  }

  lemma OnKeyDownFacts(st: GroceryState, key: string)
    ensures key == "Enter" ==> OnKeyDown(st, key) == AddItem(st)
    ensures key != "Enter" ==> OnKeyDown(st, key) == st
  {
  }
}

/** The profile page (`app/dashboard/perfil/page.tsx`): the avatar initials and the
    confirmed logout. */
module PerfilPage {
  import opened Wrappers
  import opened Text
  import opened Lists
  import opened Records

  /** `ws.map((n) => n[0]).join("")`: `n[0]` of an empty piece is `undefined`, which
      `join` writes as nothing. */
  function Heads(ws: seq<string>): (r: string)
    ensures |r| <= |ws|
    decreases |ws|
  {
    if ws == [] then "" else (if ws[0] == "" then "" else [ws[0][0]]) + Heads(ws[1..])
  }

  /** `getInitials(name)` */
  function Initials(name: string): string {
    Upper(Heads(Split(name, ' ')))
  }

  /** The non-empty space-separated words of a name. */
  function Words(name: string): seq<string> {
    Filter(Split(name, ' '), (w: string) => w != "")
  }

  /** Empty pieces contribute nothing, so only the non-empty words count. */
  lemma {:induction false} HeadsSkipEmpty(ws: seq<string>)
    ensures Heads(ws) == Heads(Filter(ws, (w: string) => w != ""))
    decreases |ws|
  {
    if ws != [] {
      HeadsSkipEmpty(ws[1..]);
      var rest := Filter(ws[1..], (w: string) => w != "");
      if ws[0] != "" {
        assert Filter(ws, (w: string) => w != "") == [ws[0]] + rest;
        assert ([ws[0]] + rest)[1..] == rest;
      } else {
        assert Filter(ws, (w: string) => w != "") == rest;
      }
    }
  }

  /** Over non-empty words, `Heads` is one first character per word. */
  lemma {:induction false} HeadsOfWords(ws: seq<string>)
    requires forall k :: 0 <= k < |ws| ==> ws[k] != ""
    ensures |Heads(ws)| == |ws|
    ensures forall k :: 0 <= k < |ws| ==> Heads(ws)[k] == ws[k][0]
    decreases |ws|
  {
    if ws != [] {
      HeadsOfWords(ws[1..]);
      assert Heads(ws) == [ws[0][0]] + Heads(ws[1..]);
    }
  }

  /** One upper-cased first character per non-empty word, in order. */
  lemma InitialsPerWord(name: string)
    ensures |Initials(name)| == |Words(name)|
    ensures forall k :: 0 <= k < |Words(name)| ==> Initials(name)[k] == UpperChar(Words(name)[k][0])
  {
    HeadsSkipEmpty(Split(name, ' '));
    HeadsOfWords(Words(name));
  }

  /** An empty name has no initials. */
  lemma InitialsOfEmpty()
    ensures Initials("") == ""
  {
    assert Split("", ' ') == [""];
  }

  /** Only the space splits: a name with no space, however long and whatever other
      blanks it holds, gives one initial. */
  lemma InitialsOnlySpaceSplits(name: string)
    requires name != "" && ' ' !in name
    ensures Initials(name) == [UpperChar(name[0])]
  {
    SplitNoSeparator(name, ' ');
    assert Heads([name]) == [name[0]] + Heads([]);
  }

  /** What `handleLogout` leaves behind: the storage, and where the router goes. */
  datatype LoggedOut = LoggedOut(storage: Storage, navigateTo: Option<string>)

  /** `handleLogout`: after the confirmation, the four session keys go and the router
      goes to `/`; without it nothing happens. */
  function Logout(s: Storage, confirmed: bool): (r: LoggedOut)
    ensures !confirmed ==> r.storage == s && r.navigateTo.None?
    ensures confirmed ==> r.storage == RemoveSessionKeys(s) && r.navigateTo == Some("/")
  {
    if confirmed then LoggedOut(RemoveSessionKeys(s), Some("/")) else LoggedOut(s, None)
  }

  /** Logging out twice is logging out once. */
  lemma LogoutIdempotent(s: Storage)
    ensures Logout(Logout(s, true).storage, true) == Logout(s, true)
  {
  }
}

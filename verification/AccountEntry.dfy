/** One account's entry in the response: a typed record that is flattened to a JSON object and read back
    from it. The persona cache relies on the pair being inverse. */
module AccountEntry {
  import opened Base
  import opened JsonValue

  const WEBSITE := "_website"
  const USER_EXIST := "user_exist"
  const ERROR := "error"

  // The value of an account record. A nil Data map and an empty one are not told apart.
  datatype Entry = Entry(website: string, userExist: Answer, error: bool, data: map<string, Json>)

  const BLANK := Entry("", Unknown, false, map[])

  /******* Flattening *******/

  function Verdict(a: Answer): map<string, Json> {
    match a
    case Unknown => map[]
    case Yes => map[USER_EXIST := Bool(true)]
    case No => map[USER_EXIST := Bool(false)]
  }

  // A failed crawl is a bare error; otherwise the data lies over the verdict.
  function Flat(e: Entry): map<string, Json> {
    var body := if e.error then map[ERROR := Bool(true)] else Verdict(e.userExist) + e.data;
    if e.website != "" then body[WEBSITE := Str(e.website)] else body
  }

  /******* Reading back *******/

  // Decoding into a string: null and other kinds leave the target alone.
  function ReadWebsite(raw: map<string, Json>, was: string): string {
    if WEBSITE in raw && raw[WEBSITE].Str? then raw[WEBSITE].s else was
  }

  // Decoding into a fresh bool: null succeeds without touching it, so it reads as false.
  function ReadVerdict(raw: map<string, Json>, was: Answer): Answer {
    if USER_EXIST !in raw then was
    else match raw[USER_EXIST]
      case Bool(b) => if b then Yes else No
      case Null => No
      case _ => was
  }

  function ReadError(raw: map<string, Json>, was: bool): bool {
    if ERROR !in raw then was
    else match raw[ERROR]
      case Bool(b) => b
      case Null => false
      case _ => was
  }

  function Rest(raw: map<string, Json>): map<string, Json> {
    raw - {WEBSITE, USER_EXIST, ERROR}
  }

  // Taking the three keys out one after the other changes none of what is read.
  lemma OneByOne(raw: map<string, Json>, verdict: Answer, failed: bool)
    ensures raw - {WEBSITE} - {USER_EXIST} - {ERROR} == Rest(raw)
    ensures ReadVerdict(raw - {WEBSITE}, verdict) == ReadVerdict(raw, verdict)
    ensures ReadError(raw - {WEBSITE} - {USER_EXIST}, failed) == ReadError(raw, failed)
  {
    assert |WEBSITE| == 8 && |USER_EXIST| == 10 && |ERROR| == 5;
  }

  // What decoding an object into a record leaves there.
  function Unflat(was: Entry, raw: map<string, Json>): Entry {
    Entry(ReadWebsite(raw, was.website), ReadVerdict(raw, was.userExist), ReadError(raw, was.error),
          if Rest(raw) != map[] then Rest(raw) else was.data)
  }

  /******* The round trip *******/

  // The entries that survive the trip through the cache: a failure says nothing else, and the data keeps
  // off the three typed keys.
  predicate Normal(e: Entry) {
    if e.error then e.userExist == Unknown && e.data == map[]
    else WEBSITE !in e.data && USER_EXIST !in e.data && ERROR !in e.data
  }

  // Main result: reading a flattened entry back yields it again exactly when it is in normal form.
  lemma RoundTripIff(e: Entry)
    ensures Unflat(BLANK, Flat(e)) == e <==> Normal(e)
  {
    var raw := Flat(e);
    if e.error {
      assert Rest(raw) == map[];
    } else {
      assert Rest(raw) == Rest(e.data);
      if Normal(e) {
        assert Rest(e.data) == e.data;
      }
    }
  }

  /******* What is read, and what is replayed, member by member *******/

  predicate Typed(k: string) { k == "_website" || k == "user_exist" || k == "error" }

  // The members that no typed field takes.
  ghost predicate Untyped(raw: map<string, Json>, data: map<string, Json>) {
    forall k :: (k in data <==> k in raw && !Typed(k)) && (k in data ==> data[k] == raw[k])
  }

  // A blank record takes each typed field from its own member, whatever else the object holds, and the other
  // members as data.
  ghost predicate TakenFrom(raw: map<string, Json>, e: Entry) {
    && e.website == (if "_website" in raw && raw["_website"].Str? then raw["_website"].s else "")
    && (e.userExist == Yes <==> "user_exist" in raw && raw["user_exist"] == Bool(true))
    && (e.userExist == No <==> "user_exist" in raw && (raw["user_exist"] == Bool(false) || raw["user_exist"] == Null))
    && (e.error <==> "error" in raw && raw["error"] == Bool(true))
    && Untyped(raw, e.data)
  }

  lemma BlankTakes(raw: map<string, Json>)
    ensures TakenFrom(raw, Unflat(BLANK, raw))
  {
    RestIsUntyped(raw);
  }

  lemma RestIsUntyped(raw: map<string, Json>)
    ensures Untyped(raw, Rest(raw)) && (Rest(raw) == map[] <==> forall k :: k in raw ==> Typed(k))
  {
    assert forall k :: k in Rest(raw) <==> k in raw && !Typed(k);
    if k :| k in raw && !Typed(k) {
      assert k in Rest(raw);
    }
  }

  // The website an entry is shown with: its own, or one among the data of an entry that has none.
  function SiteOf(e: Entry): string {
    if e.website != "" then e.website
    else if !e.error && "_website" in e.data && e.data["_website"].Str? then e.data["_website"].s
    else ""
  }

  predicate Fails(e: Entry) {
    e.error || ("error" in e.data && e.data["error"] == Bool(true))
  }

  // The verdict an entry is shown with: the data's own where it has one that is true, false or null.
  function ShownVerdict(e: Entry): Option<Json> {
    if "user_exist" in e.data then
      match e.data["user_exist"]
      case Bool(b) => Some(Bool(b))
      case Null => Some(Bool(false))
      case _ => None
    else
      match e.userExist
      case Unknown => None
      case Yes => Some(Bool(true))
      case No => Some(Bool(false))
  }

  // What a crawled entry looks like after it was stored and read back: a bare error where it failed or its data
  // say so, else its verdict and its data, and the website in either case.
  ghost predicate Replayed(e: Entry, out: map<string, Json>) {
    && ("_website" in out <==> SiteOf(e) != "") && ("_website" in out ==> out["_website"] == Str(SiteOf(e)))
    && (Fails(e) ==> "error" in out && out["error"] == Bool(true)
                     && forall k :: k in out ==> k == "error" || k == "_website")
    && (!Fails(e) ==>
          && "error" !in out && Untyped(e.data, map k | k in out && !Typed(k) :: out[k])
          && ("user_exist" in out <==> ShownVerdict(e).Some?)
          && ("user_exist" in out ==> Some(out["user_exist"]) == ShownVerdict(e)))
  }

  // What is stored of an entry, key by key.
  lemma Stored(e: Entry, k: string)
    ensures var raw := Flat(e);
            && (!Typed(k) && !e.error ==> (k in raw <==> k in e.data) && (k in raw ==> raw[k] == e.data[k]))
            && (!Typed(k) && e.error ==> k !in raw)
  {
    KeysApart();
  }

  lemma StoredTyped(e: Entry)
    ensures var back := Unflat(BLANK, Flat(e)); back.website == SiteOf(e) && (back.error <==> Fails(e))
  {
    KeysApart();
  }

  // What a record shows, in terms of its fields.
  lemma Shown(e: Entry)
    requires forall k :: k in e.data ==> !Typed(k)
    ensures var out := Flat(e);
            && ("_website" in out <==> e.website != "") && ("_website" in out ==> out["_website"] == Str(e.website))
            && (e.error ==> "error" in out && out["error"] == Bool(true)
                            && forall k :: k in out ==> k == "error" || k == "_website")
            && (!e.error ==>
                  && "error" !in out && (forall k :: !Typed(k) ==> (k in out <==> k in e.data))
                  && (forall k :: k in e.data ==> out[k] == e.data[k])
                  && ("user_exist" in out <==> e.userExist != Unknown)
                  && ("user_exist" in out ==> out["user_exist"] == Bool(e.userExist == Yes)))
  {
    KeysApart();
  }

  // Main result: for every crawled entry, in normal form or not.
  lemma ReplayShows(e: Entry)
    ensures Replayed(e, Flat(Unflat(BLANK, Flat(e))))
  {
    var back := Unflat(BLANK, Flat(e));
    RestIsUntyped(Flat(e));
    StoredTyped(e);
    Shown(back);
    if !Fails(e) {
      forall k | !Typed(k) ensures (k in back.data <==> k in e.data) && (k in e.data ==> back.data[k] == e.data[k]) {
        Stored(e, k);
      }
      VerdictShown(e);
    }
  }

  lemma KeysApart()
    ensures WEBSITE != USER_EXIST && WEBSITE != ERROR && USER_EXIST != ERROR
  {
    assert |WEBSITE| == 8 && |USER_EXIST| == 10 && |ERROR| == 5;
  }

  lemma VerdictShown(e: Entry)
    requires !e.error
    ensures var back := Unflat(BLANK, Flat(e)).userExist;
            ShownVerdict(e) == if back == Unknown then None else Some(Bool(back == Yes))
  {
    KeysApart();
  }

  // The website survives for every entry, and so does the failure mark, typed or not in normal form.
  lemma ErrorHidesTheRest(e: Entry)
    requires e.error
    ensures Unflat(BLANK, Flat(e)) == Entry(e.website, Unknown, true, map[])
  {
    assert Rest(Flat(e)) == map[];
  }

  // The objects some flattened entry looks like.
  predicate Canonical(raw: map<string, Json>) {
    && (WEBSITE in raw ==> raw[WEBSITE].Str? && raw[WEBSITE].s != "")
    && (USER_EXIST in raw ==> raw[USER_EXIST].Bool?)
    && (ERROR in raw ==> raw[ERROR] == Bool(true) && raw.Keys <= {ERROR, WEBSITE})
  }

  // The other direction: an object is reproduced by reading it and flattening the record again exactly when
  // it is canonical. A null verdict, a false error mark or an error with company is not.
  lemma ReencodeIff(raw: map<string, Json>)
    ensures Flat(Unflat(BLANK, raw)) == raw <==> Canonical(raw)
  {
    var e := Unflat(BLANK, raw);
    assert e.data == Rest(raw);
    assert forall k :: k in Rest(raw) <==> k in raw && k != WEBSITE && k != USER_EXIST && k != ERROR;
    if Canonical(raw) {
      assert ERROR in raw ==> Rest(raw) == map[];
      assert Flat(e).Keys == raw.Keys;
    }
    if Flat(e) == raw {
      assert e.error ==> raw.Keys <= {ERROR, WEBSITE};
    }
  }

  // A null verdict comes back as false.
  lemma NullVerdictReadsFalse()
    ensures Unflat(BLANK, map[USER_EXIST := Null]) == Entry("", No, false, map[])
    ensures Flat(Unflat(BLANK, map[USER_EXIST := Null])) == map[USER_EXIST := Bool(false)]
  {
    assert Rest(map[USER_EXIST := Null]) == map[];
  }

  /******* Whole lists *******/

  function FlatAll(es: seq<Entry>): seq<Json> {
    seq(|es|, i requires 0 <= i < |es| => Obj(Flat(es[i])))
  }

  // A list is decoded element by element, each into a blank record. A null element leaves its record
  // blank; anything else that is no object fails the list.
  function UnflatAll(js: seq<Json>): Option<seq<Entry>> {
    if js == [] then Some([])
    else
      var rest := UnflatAll(js[1..]);
      match js[0]
      case Obj(raw) => if rest.Some? then Some([Unflat(BLANK, raw)] + rest.value) else None
      case Null => if rest.Some? then Some([BLANK] + rest.value) else None
      case _ => None
  }

  lemma {:induction false} UnflatAllOfFlatAll(es: seq<Entry>)
    ensures UnflatAll(FlatAll(es)).Some? && |UnflatAll(FlatAll(es)).value| == |es|
    ensures forall i :: 0 <= i < |es| ==> UnflatAll(FlatAll(es)).value[i] == Unflat(BLANK, Flat(es[i]))
  {
    if es != [] {
      UnflatAllOfFlatAll(es[1..]);
      assert FlatAll(es)[1..] == FlatAll(es[1..]);
      assert FlatAll(es)[0] == Obj(Flat(es[0]));
    }
  }

  // Lifted to lists: the list comes back whole exactly when every entry is in normal form.
  lemma ListRoundTripIff(es: seq<Entry>)
    ensures UnflatAll(FlatAll(es)) == Some(es) <==> forall i :: 0 <= i < |es| ==> Normal(es[i])
  {
    UnflatAllOfFlatAll(es);
    var back := UnflatAll(FlatAll(es)).value;
    forall i | 0 <= i < |es| ensures back[i] == es[i] <==> Normal(es[i]) {
      RoundTripIff(es[i]);
    }
    assert back == es <==> forall i :: 0 <= i < |es| ==> back[i] == es[i];
  }

  /******* The record *******/

  // One map copied over another, key by key in no particular order.
  method Layer(base: map<string, Json>, over: map<string, Json>) returns (out: map<string, Json>)
    ensures out == base + over
  {
    out := base;
    var rest := over.Keys;
    while rest != {}
      invariant rest <= over.Keys && out == base + (over - rest)
    {
      var k :| k in rest;
      out, rest := out[k := over[k]], rest - {k};
    }
    assert over - rest == over;
  }

  // The value at a key, if any, and the map without the key.
  method Take(raw: map<string, Json>, key: string) returns (v: Option<Json>, rest: map<string, Json>)
    ensures v == if key in raw then Some(raw[key]) else None
    ensures rest == raw - {key}
  {
    v := if key in raw then Some(raw[key]) else None;
    rest := raw - {key};
  }

  class AccountDetails {
    var website: string
    var userExist: Answer
    var error: bool
    var data: map<string, Json>

    constructor ()
      ensures View() == BLANK
    {
      website, userExist, error, data := "", Unknown, false, map[];
    }

    function View(): Entry
      reads this
    {
      Entry(website, userExist, error, data)
    }

    method MarshalJSON() returns (out: map<string, Json>)
      ensures out == Flat(View())
      ensures website != "" ==> "_website" in out && out["_website"] == Str(website)
      ensures error ==> "error" in out && out["error"] == Bool(true)
      ensures error ==> forall k :: k in out ==> k == "error" || (k == "_website" && website != "")
      ensures !error ==> forall k :: k in out <==>
                k in data || (k == "user_exist" && userExist != Unknown) || (k == "_website" && website != "")
      ensures !error ==> forall k :: k in data && (k != "_website" || website == "") ==> out[k] == data[k]
      ensures !error && "user_exist" in out && "user_exist" !in data ==> out["user_exist"] == Bool(userExist == Yes)
    {
      out := map[];
      if error {
        out := out[ERROR := Bool(true)];
      } else {
        if userExist != Unknown {
          out := out[USER_EXIST := Bool(userExist == Yes)];
        }
        out := Layer(out, data);
      }
      if website != "" {
        out := out[WEBSITE := Str(website)];
      }
    }

    // The receiver need not be blank: keys that are absent leave their field as it was.
    method UnmarshalJSON(j: Json) returns (ok: bool)
      modifies this
      ensures ok <==> j.Obj? || j.Null?
      ensures View() == if j.Obj? then Unflat(old(View()), j.fields) else old(View())
      ensures j.Obj? ==>
                website == if "_website" in j.fields && j.fields["_website"].Str? then j.fields["_website"].s
                           else old(website)
      ensures j.Obj? ==>
                var v := if "user_exist" in j.fields then j.fields["user_exist"] else Str("");
                userExist == if v == Bool(true) then Yes
                             else if v == Bool(false) || v == Null then No else old(userExist)
      ensures j.Obj? ==>
                var v := if "error" in j.fields then j.fields["error"] else Str("");
                error == if v.Bool? || v == Null then v == Bool(true) else old(error)
      ensures j.Obj? ==>
                if forall k :: k in j.fields ==> Typed(k) then data == old(data) else Untyped(j.fields, data)
    {
      ok := j.Obj? || j.Null?;
      if ok {
        Decode(if j.Obj? then j.fields else map[]);
        assert Rest(map[]) == map[];
        if j.Obj? {
          RestIsUntyped(j.fields);
        }
      }
    }

    method TakeWebsite(raw: map<string, Json>) returns (rest: map<string, Json>)
      modifies `website
      ensures rest == raw - {WEBSITE} && website == ReadWebsite(raw, old(website))
    {
      var v;
      v, rest := Take(raw, WEBSITE);
      if v.Some? && v.value.Str? {
        website := v.value.s;
      }
    }

    method TakeVerdict(raw: map<string, Json>) returns (rest: map<string, Json>)
      modifies `userExist
      ensures rest == raw - {USER_EXIST} && userExist == ReadVerdict(raw, old(userExist))
    {
      var v;
      v, rest := Take(raw, USER_EXIST);
      if v.Some? && (v.value.Bool? || v.value.Null?) {
        userExist := if v.value.Bool? && v.value.b then Yes else No;
      }
    }

    method TakeError(raw: map<string, Json>) returns (rest: map<string, Json>)
      modifies `error
      ensures rest == raw - {ERROR} && error == ReadError(raw, old(error))
    {
      var v;
      v, rest := Take(raw, ERROR);
      if v.Some? && (v.value.Bool? || v.value.Null?) {
        error := v.value.Bool? && v.value.b;
      }
    }

    // The part that runs once the outer object is parsed.
    method Decode(all: map<string, Json>)
      modifies this
      ensures View() == Unflat(old(View()), all)
    {
      OneByOne(all, userExist, error);
      var raw := TakeWebsite(all);
      raw := TakeVerdict(raw);
      raw := TakeError(raw);
      if raw != map[] {
        data := Layer(map[], raw);
      }
    }
  }
}

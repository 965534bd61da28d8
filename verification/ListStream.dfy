/** Lists sent as reversed countdowns, and the chat history rebuilt in the client's cache. */
module ListStream {
  import opened Options

  const TWO31: nat := 0x8000_0000
  const TWO32: nat := 0x1_0000_0000
  const NO_MORE_REMAINING: int := -1

  /** One response of a list; the countdown is a 32-bit signed integer. */
  datatype Response<T> = Response(item: Option<T>, remaining: int)

  /** Conversion to 'int32_t'. */
  function Int32(n: nat): int {
    var m := n % TWO32;
    if m < TWO31 then m else m - TWO32
  }

  function Reversed<T>(s: seq<T>): (r: seq<T>)
    ensures |r| == |s|
  {
    if s == [] then [] else [s[|s| - 1]] + Reversed(s[..|s| - 1])
  }

  /** The last element first, each with the number of elements to come, or a sentinel. */
  ghost predicate Countdown<T>(items: seq<T>, out: seq<Response<T>>) {
    if |items| == 0 then out == [Response(None, -1)]
    else
      && |out| == |items|
      && forall k :: 0 <= k < |items| ==> out[k] == Response(Some(items[|items| - 1 - k]), Int32(|items| - 1 - k))
  }

  /** The server's side: the last element first, each with the number of elements to come. */
  method SendList<T>(items: seq<T>) returns (out: seq<Response<T>>)
    ensures Countdown(items, out)
  {
    if |items| == 0 {
      return [Response(None, NO_MORE_REMAINING)];
    }
    var remaining := |items| % TWO32;
    out := [];
    var i := |items|;
    while i > 0
      invariant 0 <= i <= |items| && remaining == i % TWO32 && |out| == |items| - i
      invariant forall k :: 0 <= k < |out| ==> out[k] == Response(Some(items[|items| - 1 - k]), Int32(|items| - 1 - k))
    {
      i := i - 1;
      remaining := (remaining + TWO32 - 1) % TWO32;
      out := out + [Response(Some(items[i]), Int32(remaining))];
    }
  }

  /** 'SendRequestList': read responses until the countdown says there are no more.  The result
      is None when the stream ends first. */
  method ReceiveList<T>(stream: seq<Response<T>>) returns (got: Option<seq<T>>, used: nat)
    ensures used <= |stream|
    ensures got.Some? ==> used > 0 && Read(stream, used, got.value)
    ensures got.None? ==> forall i :: 0 <= i < |stream| ==> stream[i].remaining > 0
  {
    if |stream| == 0 {
      return None, 0;
    }
    var r := stream[0];
    used := 1;
    if r.remaining == NO_MORE_REMAINING {
      return Some([]), 1;
    }
    var items := if r.item.Some? then [r.item.value] else [];
    FirstItem(stream);
    hide Items;
    while r.remaining > 0
      invariant 0 < used <= |stream| && r == stream[used - 1]
      invariant stream[0].remaining != NO_MORE_REMAINING
      invariant forall i :: 0 <= i < used - 1 ==> stream[i].remaining > 0
      invariant items == Items(stream[..used])
      decreases |stream| - used
    {
      if used == |stream| {
        return None, used;
      }
      ItemsGrow(stream, used);
      r := stream[used];
      used := used + 1;
      items := items + (if r.item.Some? then [r.item.value] else []);
    }
    got := Some(items);
  }

  ghost function Items<T>(rs: seq<Response<T>>): seq<T> {
    if rs == [] then []
    else (if rs[0].item.Some? then [rs[0].item.value] else []) + Items(rs[1..])
  }

  lemma {:induction false} ItemsNext<T>(rs: seq<Response<T>>, r: Response<T>)
    ensures Items(rs + [r]) == Items(rs) + (if r.item.Some? then [r.item.value] else [])
  {
    if rs == [] {
      assert rs + [r] == [r];
    } else {
      ItemsNext(rs[1..], r);
      assert (rs + [r])[1..] == rs[1..] + [r];
    }
  }

  lemma FirstItem<T>(stream: seq<Response<T>>)
    requires |stream| > 0
    ensures Items(stream[..1]) == if stream[0].item.Some? then [stream[0].item.value] else []
  {
    assert stream[..1][1..] == [];
  }

  lemma ItemsGrow<T>(stream: seq<Response<T>>, used: nat)
    requires used < |stream|
    ensures Items(stream[..used + 1]) == Items(stream[..used]) + (if stream[used].item.Some? then [stream[used].item.value] else [])
  {
    assert stream[..used + 1] == stream[..used] + [stream[used]];
    ItemsNext(stream[..used], stream[used]);
  }

  /** 'items' are those of the first 'used' responses, up to the first countdown that is not positive. */
  ghost predicate Read<T>(stream: seq<Response<T>>, used: nat, items: seq<T>) {
    && 0 < used <= |stream|
    && if stream[0].remaining == -1 then used == 1 && items == []
       else
         && (forall i :: 0 <= i < used - 1 ==> stream[i].remaining > 0) && stream[used - 1].remaining <= 0
         && items == Items(stream[..used])
  }

  lemma {:induction false} ItemsReversed<T>(items: seq<T>, rs: seq<Response<T>>, n: nat)
    requires n <= |rs| && n <= |items|
    requires forall k :: 0 <= k < n ==> rs[k].item == Some(items[|items| - 1 - k])
    ensures Items(rs[..n]) == Reversed(items[|items| - n..])
    decreases n
  {
    if n > 0 {
      ItemsReversed(items, rs, n - 1);
      assert rs[..n] == rs[..n - 1] + [rs[n - 1]];
      ItemsNext(rs[..n - 1], rs[n - 1]);
      ReversedFront(items[|items| - n], items[|items| - n + 1..]);
      assert items[|items| - n..] == [items[|items| - n]] + items[|items| - n + 1..];
    }
  }

  lemma {:induction false} ReversedFront<T>(x: T, s: seq<T>)
    ensures Reversed([x] + s) == Reversed(s) + [x]
  {
    if s == [] {
      assert [x] + s == [x];
    } else {
      var t := [x] + s;
      assert t[|t| - 1] == s[|s| - 1] && t[..|t| - 1] == [x] + s[..|s| - 1];
      ReversedFront(x, s[..|s| - 1]);
    }
  }

  /** How many elements of a list of length 'n' arrive: the countdown is cut to 32 bits. */
  function Arrives(n: nat): (k: nat)
    ensures k <= n && (k == n <==> n <= TWO31)
  {
    if n == 0 || Int32(n - 1) == NO_MORE_REMAINING then 0
    else if Int32(n - 1) < 0 then 1
    else Int32(n - 1) + 1
  }

  /** Server and client together: the last elements arrive reversed, all of them and with
      exactly their responses used if and only if the list has at most 2^31 elements. */
  method Transfer<T(==)>(items: seq<T>, after: seq<Response<T>>) returns (got: Option<seq<T>>, used: nat)
    ensures got == Some(Reversed(items[|items| - Arrives(|items|)..]))
    ensures used == if Arrives(|items|) == 0 then 1 else Arrives(|items|)
    ensures got == Some(Reversed(items)) <==> |items| <= TWO31
  {
    var out := SendList(items);
    got, used := ReceiveList(out + after);
    TransferEnds(items, out, after, got, used);
    assert items[0..] == items;
  }

  lemma TransferEnds<T>(items: seq<T>, out: seq<Response<T>>, after: seq<Response<T>>, got: Option<seq<T>>, used: nat)
    requires Countdown(items, out)
    requires got.Some? ==> Read(out + after, used, got.value)
    requires got.None? ==> forall i :: 0 <= i < |out + after| ==> (out + after)[i].remaining > 0
    ensures got == Some(Reversed(items[|items| - Arrives(|items|)..]))
    ensures used == if Arrives(|items|) == 0 then 1 else Arrives(|items|)
  {
    hide Int32, Items;
    var stream, n := out + after, Arrives(|items|);
    assert stream[0] == out[0];
    if n == 0 {
      assert items[|items|..] == [];
    } else {
      CountdownEnds(items, out, after);
      assert stream[n - 1].remaining <= 0;
      assert got.Some?;
      AllUsed(items, out, after, got, used);
    }
  }

  /** The first countdown that is not positive belongs to the last element that arrives. */
  lemma CountdownEnds<T>(items: seq<T>, out: seq<Response<T>>, after: seq<Response<T>>)
    requires Countdown(items, out) && Arrives(|items|) > 0
    ensures var n, stream := Arrives(|items|), out + after;
      && n <= |out| && stream[n - 1].remaining <= 0 && stream[0].remaining != NO_MORE_REMAINING
      && forall k :: 0 <= k < n - 1 ==> stream[k].remaining > 0
  {
    var n, stream := Arrives(|items|), out + after;
    forall k | 0 <= k < n
      ensures stream[k].remaining == Int32(|items| - 1 - k)
      ensures k < n - 1 ==> Int32(|items| - 1 - k) > 0
    {
      assert stream[k] == out[k];
      if n > 1 {
        Counts(|items| - 1, k);
      }
    }
    if n > 1 {
      Counts(|items| - 1, n - 1);
    }
  }

  lemma Counts(m: nat, k: nat)
    requires Int32(m) >= k
    ensures m >= k && Int32(m - k) == Int32(m) - k
  {
    assert (m - k) % TWO32 == m % TWO32 - k;
  }

  lemma AllUsed<T>(items: seq<T>, out: seq<Response<T>>, after: seq<Response<T>>, got: Option<seq<T>>, used: nat)
    requires Countdown(items, out) && got.Some? && Read(out + after, used, got.value) && Arrives(|items|) > 0
    ensures got == Some(Reversed(items[|items| - Arrives(|items|)..])) && used == Arrives(|items|)
  {
    hide Int32, Arrives, Items;
    var n, stream := Arrives(|items|), out + after;
    CountdownEnds(items, out, after);
    assert stream[..n] == out[..n];
    ItemsReversed(items, out, n);
  }

  // ----- the client's cache -----

  datatype Message = Message(id: nat, text: string)

  ghost predicate DistinctIds(ms: seq<Message>) {
    forall i, j :: 0 <= i < j < |ms| ==> ms[i].id != ms[j].id
  }

  ghost predicate HasId(ms: seq<Message>, id: nat) {
    exists i :: 0 <= i < |ms| && ms[i].id == id
  }

  class ChatMemory {
    var messages: seq<Message>

    constructor ()
      ensures messages == []
    {
      messages := [];
    }

    /** 'storeMessageToChat': a message already stored is dropped. */
    method Store(m: Message, addLast: bool)
      modifies this
      ensures messages == if HasId(old(messages), m.id) then old(messages)
                          else if addLast then old(messages) + [m] else [m] + old(messages)
    {
      var i := 0;
      while i < |messages|
        invariant 0 <= i <= |messages| && forall j :: 0 <= j < i ==> messages[j].id != m.id
      {
        if messages[i].id == m.id {
          return;
        }
        i := i + 1;
      }
      messages := if addLast then messages + [m] else [m] + messages;
    }

    /** Load a history that arrived reversed.  If the cache holds the end of it and newer
        messages, as updates may have left there, the server's order is restored. */
    method LoadHistory(arrived: seq<Message>, ghost history: seq<Message>, ghost known: nat, ghost newer: seq<Message>)
      requires known <= |history| && arrived == Reversed(history) && DistinctIds(history + newer)
      requires messages == history[|history| - known..] + newer
      modifies this
      ensures messages == history + newer
    {
      ghost var n, whole := |history|, history + newer;
      assert messages == whole[n - known..];
      var i := 0;
      while i < |arrived|
        invariant 0 <= i <= |arrived|
        invariant messages == whole[n - (if i < known then known else i)..]
      {
        ReversedAt(history, i);
        FrontStep(whole, n, i, if i < known then known else i);
        Store(arrived[i], false);
        i := i + 1;
      }
      assert whole[0..] == whole;
    }
  }

  /** The message before those held is new, and any later one is not. */
  lemma FrontStep(whole: seq<Message>, n: nat, i: nat, held: nat)
    requires DistinctIds(whole) && i < n <= |whole| && i <= held <= n
    ensures HasId(whole[n - held..], whole[n - 1 - i].id) <==> i < held
    ensures [whole[n - 1 - i]] + whole[n - i..] == whole[n - 1 - i..]
  {
    var tail := whole[n - held..];
    assert forall j :: 0 <= j < |tail| ==> tail[j] == whole[n - held + j];
    if i < held {
      assert tail[held - 1 - i] == whole[n - 1 - i];
    }
  }

  lemma {:induction false} ReversedAt<T>(s: seq<T>, i: nat)
    requires i < |s|
    ensures Reversed(s)[i] == s[|s| - 1 - i]
    decreases |s|
  {
    if i > 0 {
      ReversedAt(s[..|s| - 1], i - 1);
    }
  }
}

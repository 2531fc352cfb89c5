/**
 * Key resolution and grab registration: which physical keycodes carry a key
 * symbol in the server's keyboard mapping, and which passive grabs are
 * requested for the bound keys under every lock-modifier variant.
 */
module Keys {
  import opened XTypes

  /** A modifier mask as the core protocol encodes it (SETofKEYMASK). */
  type ModMask = bv16

  const NO_MODIFIER: ModMask := 0x00
  /** CapsLock. */
  const LOCK: ModMask := 0x02
  /** Mod2, NumLock on common keyboards. */
  const M2: ModMask := 0x10
  /** Mod4, the "super" key. */
  const M4: ModMask := 0x40
  /** The primary binding modifier. */
  const MOD: ModMask := M4

  const KEYSYM_AUDIO_LOWER_VOLUME: Keysym := 0x1008FF11
  const KEYSYM_AUDIO_MUTE: Keysym := 0x1008FF12
  const KEYSYM_AUDIO_RAISE_VOLUME: Keysym := 0x1008FF13

  const XK_RETURN: Keysym := 0xff0d
  const XK_Q: Keysym := 0x0071
  const XK_J: Keysym := 0x006a
  const XK_K: Keysym := 0x006b
  const XK_T: Keysym := 0x0074
  const XK_B: Keysym := 0x0062
  const XK_D: Keysym := 0x0064

  /** The keycodes of each logical command. */
  datatype Keybindings = Keybindings(
    terminal: seq<Keycode>,
    close: seq<Keycode>,
    focusNext: seq<Keycode>,
    focusPrev: seq<Keycode>,
    fileManager: seq<Keycode>,
    browser: seq<Keycode>,
    launcher: seq<Keycode>)

  datatype MultimediaKeycodes = MultimediaKeycodes(
    volumeDown: seq<Keycode>,
    volumeMute: seq<Keycode>,
    volumeUp: seq<Keycode>)

  /** One GrabKey request on the root window (owner_events false, both modes async). */
  datatype Grab = Grab(modifiers: ModMask, keycode: Keycode)

  /** The keycode range the server announces in its connection setup. */
  datatype Setup = Setup(minKeycode: Keycode, maxKeycode: Keycode)

  /** A GetKeyboardMapping request: `count` keycodes from `firstKeycode` on. */
  datatype MappingRequest = MappingRequest(firstKeycode: Keycode, count: nat)

  /** A GetKeyboardMapping reply: `keysymsPerKeycode` symbols for each keycode, in a row. */
  datatype KeyboardMapping = KeyboardMapping(keysymsPerKeycode: u8, keysyms: seq<Keysym>)

  /** The mapping request covers every keycode from the minimum to the maximum. */
  function MappingRequestFor(setup: Setup): (r: MappingRequest)
    ensures r.firstKeycode == setup.minKeycode
    ensures setup.minKeycode <= setup.maxKeycode ==>
      r.firstKeycode as int + r.count - 1 == setup.maxKeycode as int
    ensures setup.maxKeycode < setup.minKeycode ==> r.count == 1
  {
    // max_keycode.saturating_sub(min_keycode) + 1
    var span := if setup.maxKeycode < setup.minKeycode then 0 else (setup.maxKeycode - setup.minKeycode) as int;
    MappingRequest(setup.minKeycode, span + 1)
  }

  /** `slice::chunks(size)`: consecutive runs of `size` symbols, the last one possibly shorter. */
  function Chunks(syms: seq<Keysym>, size: nat): (r: seq<seq<Keysym>>)
    requires size > 0
    ensures forall i :: 0 <= i < |r| ==> 0 < |r[i]| <= size
    ensures forall i :: 0 <= i < |r| - 1 ==> |r[i]| == size
    decreases |syms|
  {
    if syms == [] then []
    else if |syms| <= size then [syms]
    else [syms[..size]] + Chunks(syms[size..], size)
  }

  function Flatten(chunks: seq<seq<Keysym>>): seq<Keysym> {
    if chunks == [] then [] else chunks[0] + Flatten(chunks[1..])
  }

  /** Chunking loses and reorders nothing: joining the chunks gives back the symbols. */
  lemma {:induction false} FlattenChunks(syms: seq<Keysym>, size: nat)
    requires size > 0
    ensures Flatten(Chunks(syms, size)) == syms
    decreases |syms|
  {
    if syms != [] && |syms| > size {
      var rest := Chunks(syms[size..], size);
      assert ([syms[..size]] + rest)[1..] == rest;
      FlattenChunks(syms[size..], size);
      assert syms == syms[..size] + syms[size..];
    }
  }

  /** The indices below `n`, in increasing order, of the chunks that contain `sym`. */
  function MatchingChunks(chunks: seq<seq<Keysym>>, sym: Keysym, n: nat): (r: seq<nat>)
    requires n <= |chunks|
    ensures forall j :: 0 <= j < |r| ==> r[j] < n && sym in chunks[r[j]]
    ensures forall i :: 0 <= i < n && sym in chunks[i] ==> i in r
    ensures forall j, k :: 0 <= j < k < |r| ==> r[j] < r[k]
  {
    if n == 0 then []
    else MatchingChunks(chunks, sym, n - 1) + (if sym in chunks[n - 1] then [n - 1] else [])
  }

  /** `min_keycode.saturating_add(index as u8)`: the index is truncated to 8 bits, the sum saturates. */
  function KeycodeAt(minKeycode: Keycode, index: nat): (c: Keycode)
    ensures minKeycode <= c
    ensures minKeycode as int + index <= 255 ==> c as int == minKeycode as int + index
    ensures minKeycode as int + index % 256 <= 255 ==> c as int == minKeycode as int + index % 256
    ensures minKeycode as int + index % 256 > 255 ==> c == 255
  {
    var sum := minKeycode as int + index % 256;
    if sum > 255 then 255 else sum as u8
  }

  function KeycodesAt(minKeycode: Keycode, indices: seq<nat>): (r: seq<Keycode>) {
    seq(|indices|, j requires 0 <= j < |indices| => KeycodeAt(minKeycode, indices[j]))
  }

  lemma KeycodesAtSnoc(minKeycode: Keycode, indices: seq<nat>, index: nat)
    ensures KeycodesAt(minKeycode, indices + [index]) == KeycodesAt(minKeycode, indices) + [KeycodeAt(minKeycode, index)]
  {
    var left := KeycodesAt(minKeycode, indices + [index]);
    var right := KeycodesAt(minKeycode, indices) + [KeycodeAt(minKeycode, index)];
    assert |left| == |right|;
    forall j | 0 <= j < |left|
      ensures left[j] == right[j]
    {
      assert (indices + [index])[j] == if j < |indices| then indices[j] else index;
    }
  }

  /**
   * The keycodes whose chunk of the mapping contains `sym`, in chunk order;
   * nothing when the mapping request or its reply failed.
   */
  function KeycodesFor(setup: Setup, reply: Option<KeyboardMapping>, sym: Keysym): (r: seq<Keycode>)
    requires reply.Some? ==> reply.value.keysymsPerKeycode > 0
    ensures reply.None? ==> r == []
    ensures forall c :: c in r ==> setup.minKeycode <= c
  {
    match reply
    case None => []
    case Some(mapping) =>
      var chunks := Chunks(mapping.keysyms, mapping.keysymsPerKeycode as nat);
      KeycodesAt(setup.minKeycode, MatchingChunks(chunks, sym, |chunks|))
  }

  /** A keysym array of `count * size` symbols falls into exactly `count` chunks. */
  lemma {:induction false} ChunkCount(syms: seq<Keysym>, size: nat, count: nat)
    requires size > 0 && |syms| == count * size
    ensures |Chunks(syms, size)| == count
    decreases count
  {
    if count > 1 {
      assert count * size == (count - 1) * size + size;
      assert (count - 1) * size >= size;
      ChunkCount(syms[size..], size, count - 1);
    } else if count == 1 {
      assert |syms| == size;
    }
  }

  /**
   * A reply that holds `keysyms_per_keycode` symbols for each requested keycode
   * meets the hypothesis of KeycodesForExact: every chunk index fits between the
   * minimum keycode and 255.
   */
  lemma MappingReplyFits(setup: Setup, mapping: KeyboardMapping)
    requires mapping.keysymsPerKeycode > 0
    requires |mapping.keysyms| == MappingRequestFor(setup).count * mapping.keysymsPerKeycode as nat
    ensures setup.minKeycode as int + |Chunks(mapping.keysyms, mapping.keysymsPerKeycode as nat)| <= 256
  {
    ChunkCount(mapping.keysyms, mapping.keysymsPerKeycode as nat, MappingRequestFor(setup).count);
  }

  /** Indices that stay below `bound`, with `min + bound <= 256`, map to `min + index` without saturating. */
  lemma KeycodesAtInRange(minKeycode: Keycode, indices: seq<nat>, bound: nat)
    requires minKeycode as int + bound <= 256
    requires forall j :: 0 <= j < |indices| ==> indices[j] < bound
    ensures |KeycodesAt(minKeycode, indices)| == |indices|
    ensures forall j :: 0 <= j < |indices| ==>
      KeycodesAt(minKeycode, indices)[j] as int == minKeycode as int + indices[j]
  {
  }

  /**
   * `r` holds keycode `c` exactly when chunk `c - minKeycode` exists and contains
   * `sym`, and `r` strictly increases.
   */
  ghost predicate ExactKeycodes(minKeycode: Keycode, chunks: seq<seq<Keysym>>, sym: Keysym, r: seq<Keycode>) {
    && (forall c: Keycode :: c in r <==>
          minKeycode <= c && (c - minKeycode) as int < |chunks| && sym in chunks[(c - minKeycode) as int])
    && (forall j, k :: 0 <= j < k < |r| ==> r[j] < r[k])
  }

  /**
   * Keycodes that are the matching chunk indices (increasing, all below
   * `|chunks|`, each holding `sym`, none missed) shifted by `minKeycode`: a keycode
   * is among them exactly when its chunk holds `sym`, and they strictly increase.
   */
  lemma ShiftedMatches(minKeycode: Keycode, chunks: seq<seq<Keysym>>, sym: Keysym, hits: seq<nat>, r: seq<Keycode>)
    requires minKeycode as int + |chunks| <= 256
    requires forall j :: 0 <= j < |hits| ==> hits[j] < |chunks| && sym in chunks[hits[j]]
    requires forall i :: 0 <= i < |chunks| && sym in chunks[i] ==> i in hits
    requires forall j, k :: 0 <= j < k < |hits| ==> hits[j] < hits[k]
    requires |r| == |hits|
    requires forall j :: 0 <= j < |r| ==> r[j] as int == minKeycode as int + hits[j]
    ensures ExactKeycodes(minKeycode, chunks, sym, r)
  {
    var min := minKeycode;
    forall c: Keycode | c in r
      ensures min <= c && (c - min) as int < |chunks| && sym in chunks[(c - min) as int]
    {
      var j :| 0 <= j < |r| && r[j] == c;
      assert (c - min) as int == hits[j];
    }
    forall c: Keycode | min <= c && (c - min) as int < |chunks| && sym in chunks[(c - min) as int]
      ensures c in r
    {
      var i := (c - min) as int;
      var j :| 0 <= j < |hits| && hits[j] == i;
      assert r[j] == c;
    }
    forall j, k | 0 <= j < k < |r|
      ensures r[j] < r[k]
    {
      assert hits[j] < hits[k];
    }
  }

  /**
   * When every chunk index fits between the minimum keycode and 255 (MappingReplyFits
   * shows it does for a full reply to MappingRequestFor), keycode `c` is reported exactly when chunk
   * `c - min` contains the symbol, and the keycodes strictly increase.
   */
  lemma KeycodesForExact(setup: Setup, mapping: KeyboardMapping, sym: Keysym)
    requires mapping.keysymsPerKeycode > 0
    requires setup.minKeycode as int + |Chunks(mapping.keysyms, mapping.keysymsPerKeycode as nat)| <= 256
    ensures ExactKeycodes(setup.minKeycode, Chunks(mapping.keysyms, mapping.keysymsPerKeycode as nat), sym,
                          KeycodesFor(setup, Some(mapping), sym))
  {
    var chunks := Chunks(mapping.keysyms, mapping.keysymsPerKeycode as nat);
    var hits := MatchingChunks(chunks, sym, |chunks|);
    var r := KeycodesFor(setup, Some(mapping), sym);
    assert r == KeycodesAt(setup.minKeycode, hits);
    KeycodesAtInRange(setup.minKeycode, hits, |chunks|);
    ShiftedMatches(setup.minKeycode, chunks, sym, hits, r);
  }

  /** One more chunk adds its keycode exactly when it holds the symbol. */
  lemma MatchingStep(minKeycode: Keycode, chunks: seq<seq<Keysym>>, sym: Keysym, index: nat)
    requires index < |chunks|
    ensures KeycodesAt(minKeycode, MatchingChunks(chunks, sym, index + 1))
      == KeycodesAt(minKeycode, MatchingChunks(chunks, sym, index))
         + (if sym in chunks[index] then [KeycodeAt(minKeycode, index)] else [])
  {
    var before := MatchingChunks(chunks, sym, index);
    if sym in chunks[index] {
      assert MatchingChunks(chunks, sym, index + 1) == before + [index];
      KeycodesAtSnoc(minKeycode, before, index);
    } else {
      assert MatchingChunks(chunks, sym, index + 1) == before + [];
      assert before + [] == before;
    }
  }

  /**
   * The X11 reply handling of `keycodes_for_keysym`: walk the chunks in order and
   * collect the keycode of every chunk that holds the symbol.
   */
  method KeycodesForKeysym(setup: Setup, reply: Option<KeyboardMapping>, sym: Keysym)
    returns (keycodes: seq<Keycode>)
    requires reply.Some? ==> reply.value.keysymsPerKeycode > 0
    ensures keycodes == KeycodesFor(setup, reply, sym)
  {
    if reply.None? {
      return [];
    }
    var mapping := reply.value;
    keycodes := [];
    var chunks := Chunks(mapping.keysyms, mapping.keysymsPerKeycode as nat);
    for index := 0 to |chunks|
      invariant keycodes == KeycodesAt(setup.minKeycode, MatchingChunks(chunks, sym, index))
    {
      MatchingStep(setup.minKeycode, chunks, sym, index);
      if sym in chunks[index] {
        keycodes := keycodes + [KeycodeAt(setup.minKeycode, index)];
      }
    }
  }

  /** The keycodes of every bound command, in binding order. */
  function BoundKeycodes(b: Keybindings): (r: seq<Keycode>)
    ensures |r| == |b.terminal| + |b.close| + |b.focusNext| + |b.focusPrev|
                   + |b.fileManager| + |b.browser| + |b.launcher|
    ensures forall c :: c in r <==>
      c in b.terminal || c in b.close || c in b.focusNext || c in b.focusPrev
      || c in b.fileManager || c in b.browser || c in b.launcher
  {
    b.terminal + b.close + b.focusNext + b.focusPrev + b.fileManager + b.browser + b.launcher
  }

  function MultimediaKeys(m: MultimediaKeycodes): (r: seq<Keycode>)
    ensures |r| == |m.volumeDown| + |m.volumeMute| + |m.volumeUp|
    ensures forall c :: c in r <==> c in m.volumeDown || c in m.volumeMute || c in m.volumeUp
  {
    m.volumeDown + m.volumeMute + m.volumeUp
  }

  /** The variants under which a binding fires: MOD alone, with NumLock, CapsLock, and both. */
  const KEY_MODIFIERS: seq<ModMask> := [MOD, MOD | M2, MOD | LOCK, MOD | M2 | LOCK]
  /** The same four lock variants without any primary modifier. */
  const MULTIMEDIA_MODIFIERS: seq<ModMask> := [NO_MODIFIER, M2, LOCK, M2 | LOCK]

  /** The grabs of one modifier variant, one per keycode in order. */
  function GrabRow(m: ModMask, keys: seq<Keycode>): seq<Grab> {
    seq(|keys|, j requires 0 <= j < |keys| => Grab(m, keys[j]))
  }

  /** All grabs, modifier-major: every keycode under the first variant, then the next. */
  function GrabPlan(mods: seq<ModMask>, keys: seq<Keycode>): (r: seq<Grab>)
    ensures |r| == |mods| * |keys|
  {
    if mods == [] then []
    else GrabPlan(mods[..|mods| - 1], keys) + GrabRow(mods[|mods| - 1], keys)
  }

  /** Grab `i * |keys| + j` is keycode j under variant i: one request per pair, modifier-major. */
  lemma {:induction false} GrabPlanAt(mods: seq<ModMask>, keys: seq<Keycode>, i: nat, j: nat)
    requires i < |mods| && j < |keys|
    ensures i * |keys| + j < |GrabPlan(mods, keys)|
    ensures GrabPlan(mods, keys)[i * |keys| + j] == Grab(mods[i], keys[j])
  {
    var n := |mods| - 1;
    var k := |keys|;
    var front := GrabPlan(mods[..n], keys);
    var row := GrabRow(mods[n], keys);
    assert GrabPlan(mods, keys) == front + row;
    assert |front| == n * k;
    var at := i * k + j;
    if i < n {
      RowBefore(i, j, n, k);
      GrabPlanAt(mods[..n], keys, i, j);
      assert (front + row)[at] == front[at];
    } else {
      assert at == |front| + j;
      assert (front + row)[at] == row[j];
    }
  }

  /** Position j of row i lies before row n when i < n. */
  lemma RowBefore(i: nat, j: nat, n: nat, k: nat)
    requires i < n && j < k
    ensures i * k + j < n * k
  {
    assert (i + 1) * k <= n * k by {
      assert n * k == (i + 1) * k + (n - i - 1) * k;
    }
  }

  /** A grab is requested exactly for the pairs of a listed variant and a listed keycode. */
  lemma {:induction false} GrabPlanCovers(mods: seq<ModMask>, keys: seq<Keycode>, g: Grab)
    ensures g in GrabPlan(mods, keys) <==> g.modifiers in mods && g.keycode in keys
  {
    if mods != [] {
      var n := |mods| - 1;
      GrabPlanCovers(mods[..n], keys, g);
      assert mods == mods[..n] + [mods[n]];
      if g.modifiers == mods[n] && g.keycode in keys {
        var j :| 0 <= j < |keys| && keys[j] == g.keycode;
        assert GrabRow(mods[n], keys)[j] == g;
      }
    }
  }

  /** The nested grab loops: for each variant, for each keycode, one grab; failures are ignored. */
  method IssueGrabs(mods: seq<ModMask>, keys: seq<Keycode>) returns (grabs: seq<Grab>)
    ensures grabs == GrabPlan(mods, keys)
  {
    grabs := [];
    for mi := 0 to |mods|
      invariant grabs == GrabPlan(mods[..mi], keys)
    {
      for ki := 0 to |keys|
        invariant grabs == GrabPlan(mods[..mi], keys) + GrabRow(mods[mi], keys[..ki])
      {
        grabs := grabs + [Grab(mods[mi], keys[ki])];
      }
      assert keys[..|keys|] == keys;
      assert mods[..mi + 1][..mi] == mods[..mi];
    }
    assert mods[..|mods|] == mods;
  }

  method GrabKeys(bindings: Keybindings) returns (grabs: seq<Grab>)
    ensures grabs == GrabPlan(KEY_MODIFIERS, BoundKeycodes(bindings))
    ensures |grabs| == 4 * |BoundKeycodes(bindings)|
    ensures forall g :: g in grabs ==> g.modifiers & M4 == M4
  {
    grabs := IssueGrabs(KEY_MODIFIERS, BoundKeycodes(bindings));
    forall g | g in grabs ensures g.modifiers & M4 == M4 {
      GrabPlanCovers(KEY_MODIFIERS, BoundKeycodes(bindings), g);
    }
  }

  method GrabMultimediaKeys(multimedia: MultimediaKeycodes) returns (grabs: seq<Grab>)
    ensures grabs == GrabPlan(MULTIMEDIA_MODIFIERS, MultimediaKeys(multimedia))
    ensures |grabs| == 4 * |MultimediaKeys(multimedia)|
    ensures forall g :: g in grabs ==> g.modifiers & M4 == NO_MODIFIER
  {
    grabs := IssueGrabs(MULTIMEDIA_MODIFIERS, MultimediaKeys(multimedia));
    forall g | g in grabs ensures g.modifiers & M4 == NO_MODIFIER {
      GrabPlanCovers(MULTIMEDIA_MODIFIERS, MultimediaKeys(multimedia), g);
    }
  }

  /** Resolves every command's key symbol against the keyboard mapping. */
  method ResolveKeybindings(setup: Setup, reply: Option<KeyboardMapping>) returns (b: Keybindings)
    requires reply.Some? ==> reply.value.keysymsPerKeycode > 0
    ensures b.terminal == KeycodesFor(setup, reply, XK_RETURN)
    ensures b.close == KeycodesFor(setup, reply, XK_Q)
    ensures b.focusNext == KeycodesFor(setup, reply, XK_J)
    ensures b.focusPrev == KeycodesFor(setup, reply, XK_K)
    ensures b.fileManager == KeycodesFor(setup, reply, XK_T)
    ensures b.browser == KeycodesFor(setup, reply, XK_B)
    ensures b.launcher == KeycodesFor(setup, reply, XK_D)
  {
    var terminal := KeycodesForKeysym(setup, reply, XK_RETURN);
    var close := KeycodesForKeysym(setup, reply, XK_Q);
    var focusNext := KeycodesForKeysym(setup, reply, XK_J);
    var focusPrev := KeycodesForKeysym(setup, reply, XK_K);
    var fileManager := KeycodesForKeysym(setup, reply, XK_T);
    var browser := KeycodesForKeysym(setup, reply, XK_B);
    var launcher := KeycodesForKeysym(setup, reply, XK_D);
    b := Keybindings(terminal, close, focusNext, focusPrev, fileManager, browser, launcher);
  }

  method ResolveMultimediaKeycodes(setup: Setup, reply: Option<KeyboardMapping>) returns (m: MultimediaKeycodes)
    requires reply.Some? ==> reply.value.keysymsPerKeycode > 0
    ensures m.volumeDown == KeycodesFor(setup, reply, KEYSYM_AUDIO_LOWER_VOLUME)
    ensures m.volumeMute == KeycodesFor(setup, reply, KEYSYM_AUDIO_MUTE)
    ensures m.volumeUp == KeycodesFor(setup, reply, KEYSYM_AUDIO_RAISE_VOLUME)
  {
    var volumeDown := KeycodesForKeysym(setup, reply, KEYSYM_AUDIO_LOWER_VOLUME);
    var volumeMute := KeycodesForKeysym(setup, reply, KEYSYM_AUDIO_MUTE);
    var volumeUp := KeycodesForKeysym(setup, reply, KEYSYM_AUDIO_RAISE_VOLUME);
    m := MultimediaKeycodes(volumeDown, volumeMute, volumeUp);
  }
}

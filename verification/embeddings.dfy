/**
 * The embeddings service: turns a text, a user profile or a post into the
 * vector the sentence-transformer model returns for it. The model itself is
 * a parameter (`Embedder`): its fixed dimension and its single-text and batch
 * encoders, about which nothing is assumed.
 */
module Embeddings {
  import opened Common
  import opened Strings

  /** The loaded model: `self.dimension`, `model.encode(text)` and `model.encode(texts)`. */
  datatype Embedder = Embedder(
    dimension: nat,
    encode: string -> seq<real>,
    encodeBatch: seq<string> -> seq<seq<real>>)

  /** `[0.0] * n`. */
  function Zeros(n: nat): (v: seq<real>)
    ensures |v| == n && forall i :: 0 <= i < n ==> v[i] == 0.0
  {
    seq(n, _ => 0.0)
  }

  // ---------------------------------------------------------------- generate_embedding

  /** A blank text embeds as the zero vector of the model's dimension; any
      other text is handed to the model unchanged. */
  function GenerateEmbedding(e: Embedder, text: string): (v: seq<real>)
    ensures IsBlank(text) ==> |v| == e.dimension && forall i :: 0 <= i < |v| ==> v[i] == 0.0
    ensures !IsBlank(text) ==> v == e.encode(text)
  {
    if IsBlank(text) then Zeros(e.dimension) else e.encode(text)
  }

  // ---------------------------------------------------------------- whitespace facts

  lemma BlankConcat(a: string, b: string)
    ensures IsBlank(a + b) <==> IsBlank(a) && IsBlank(b)
  {
    if IsBlank(a + b) {
      assert forall i :: 0 <= i < |a| ==> a[i] == (a + b)[i];
      assert forall i :: 0 <= i < |b| ==> b[i] == (a + b)[|a| + i];
    }
  }

  /** `" ".join(parts)`. */
  function JoinWithSpaces(parts: seq<string>): string {
    if |parts| == 0 then ""
    else if |parts| == 1 then parts[0]
    else parts[0] + " " + JoinWithSpaces(parts[1..])
  }

  /** The joined text is blank exactly when every part is: the separator is
      itself whitespace. */
  lemma {:induction false} JoinBlankIff(parts: seq<string>)
    ensures IsBlank(JoinWithSpaces(parts)) <==> forall i :: 0 <= i < |parts| ==> IsBlank(parts[i])
  {
    if |parts| > 1 {
      JoinBlankIff(parts[1..]);
      BlankConcat(parts[0] + " ", JoinWithSpaces(parts[1..]));
      BlankConcat(parts[0], " ");
      assert IsSpace(' ');
      assert forall i :: 1 <= i < |parts| ==> parts[i] == parts[1..][i - 1];
    }
  }

  /** Every part occurs in the joined text, in order of the parts. */
  lemma {:induction false} JoinKeepsParts(parts: seq<string>)
    ensures forall i :: 0 <= i < |parts| ==> Contains(JoinWithSpaces(parts), parts[i])
  {
    if |parts| > 1 {
      JoinKeepsParts(parts[1..]);
      var rest := JoinWithSpaces(parts[1..]);
      forall i | 0 <= i < |parts| ensures Contains(JoinWithSpaces(parts), parts[i]) {
        if i == 0 {
          ContainsPrefix(parts[0] + " " + rest, parts[0]);
        } else {
          assert parts[i] == parts[1..][i - 1];
          ContainsSuffix(parts[0] + " ", rest, parts[i]);
        }
      }
    } else if |parts| == 1 {
      ContainsPrefix(parts[0], parts[0]);
    }
  }

  lemma ContainsPrefix(text: string, word: string)
    requires word <= text
    ensures Contains(text, word)
  {
  }

  lemma {:induction false} ContainsSuffix(front: string, back: string, word: string)
    requires Contains(back, word)
    ensures Contains(front + back, word)
    decreases |front|
  {
    if |front| > 0 {
      ContainsSuffix(front[1..], back, word);
      assert (front + back)[1..] == front[1..] + back;
    } else {
      assert front + back == back;
    }
  }

  // ---------------------------------------------------------------- generate_user_embedding

  /** The profile fields the service reads; `None` is an absent key. */
  datatype UserProfile = UserProfile(firstName: Option<string>, lastName: Option<string>, bio: Option<string>)

  /** `user_data.get(field)` is truthy: present and not the empty string. */
  predicate Truthy(f: Option<string>) {
    f.Some? && f.value != ""
  }

  /** The truthy fields among first name, last name and bio, in that order. */
  function UserTextParts(u: UserProfile): (parts: seq<string>)
    ensures |parts| <= 3
    ensures forall i :: 0 <= i < |parts| ==> parts[i] != ""
  {
    (if Truthy(u.firstName) then [u.firstName.value] else [])
    + (if Truthy(u.lastName) then [u.lastName.value] else [])
    + (if Truthy(u.bio) then [u.bio.value] else [])
  }

  const UserFallback: string := "user profile"

  /** The text a profile is embedded from. */
  function UserText(u: UserProfile): string {
    var joined := JoinWithSpaces(UserTextParts(u));
    if IsBlank(joined) then UserFallback else joined
  }

  /** The profile text is never blank, so a profile is never embedded as the
      zero vector. */
  lemma UserTextNotBlank(u: UserProfile)
    ensures !IsBlank(UserText(u))
  {
    assert UserFallback[0] == 'u';
  }

  /** The fallback is used exactly when every truthy field is blank; otherwise
      the text holds each truthy field. */
  lemma UserTextFallback(u: UserProfile)
    ensures (forall i :: 0 <= i < |UserTextParts(u)| ==> IsBlank(UserTextParts(u)[i])) ==>
      UserText(u) == UserFallback
    ensures (exists i :: 0 <= i < |UserTextParts(u)| && !IsBlank(UserTextParts(u)[i])) ==>
      UserText(u) == JoinWithSpaces(UserTextParts(u)) &&
      forall i :: 0 <= i < |UserTextParts(u)| ==> Contains(UserText(u), UserTextParts(u)[i])
  {
    JoinBlankIff(UserTextParts(u));
    JoinKeepsParts(UserTextParts(u));
  }

  /** `generate_user_embedding`: collect the truthy fields, join them with
      spaces, fall back to "user profile" when that is blank, and embed it. */
  method GenerateUserEmbedding(e: Embedder, user: UserProfile) returns (v: seq<real>)
    ensures v == GenerateEmbedding(e, UserText(user))
    ensures v == e.encode(UserText(user))
  {
    var textParts: seq<string> := [];
    if Truthy(user.firstName) {
      textParts := textParts + [user.firstName.value];
    }
    if Truthy(user.lastName) {
      textParts := textParts + [user.lastName.value];
    }
    if Truthy(user.bio) {
      textParts := textParts + [user.bio.value];
    }
    assert textParts == UserTextParts(user);
    var userText := JoinWithSpaces(textParts);
    if IsBlank(userText) {
      userText := UserFallback;
    }
    UserTextNotBlank(user);
    v := GenerateEmbedding(e, userText);
  }

  // ---------------------------------------------------------------- generate_post_embedding

  /** The post document; `None` is an absent `post` key, read as "". */
  datatype PostDocument = PostDocument(post: Option<string>)

  const PostFallback: string := "post content"

  /** The text a post is embedded from: its own text, or "post content" when
      that is missing or blank. */
  function PostText(p: PostDocument): (t: string)
    ensures !IsBlank(t)
    ensures p.post.Some? && !IsBlank(p.post.value) ==> t == p.post.value
    ensures p.post.None? || IsBlank(p.post.value) ==> t == PostFallback
  {
    var text := if p.post.Some? then p.post.value else "";
    assert PostFallback[0] == 'p';
    if IsBlank(text) then PostFallback else text
  }

  /** `generate_post_embedding`: a post is always handed to the model, never
      turned into the zero vector. */
  function GeneratePostEmbedding(e: Embedder, p: PostDocument): (v: seq<real>)
    ensures v == e.encode(PostText(p))
  {
    GenerateEmbedding(e, PostText(p))
  }

  // ---------------------------------------------------------------- generate_embeddings_batch

  /** `[text if text.strip() else " " for text in texts]`. */
  function PrepareBatch(texts: seq<string>): (p: seq<string>)
    ensures |p| == |texts|
    ensures forall i :: 0 <= i < |texts| && !IsBlank(texts[i]) ==> p[i] == texts[i]
    ensures forall i :: 0 <= i < |texts| && IsBlank(texts[i]) ==> p[i] == " "
  {
    seq(|texts|, i requires 0 <= i < |texts| => if IsBlank(texts[i]) then " " else texts[i])
  }

  /** The model never receives an empty string, and preparing twice changes
      nothing more. */
  lemma PrepareBatchProperties(texts: seq<string>)
    ensures forall i :: 0 <= i < |texts| ==> PrepareBatch(texts)[i] != ""
    ensures PrepareBatch(PrepareBatch(texts)) == PrepareBatch(texts)
  {
    var p := PrepareBatch(texts);
    forall i | 0 <= i < |texts| ensures p[i] != "" {
      if IsBlank(texts[i]) {
        assert p[i] == " ";
      } else {
        assert !IsBlank(p[i]);
      }
    }
    var q := PrepareBatch(p);
    forall i | 0 <= i < |texts| ensures q[i] == p[i] {
      if IsBlank(p[i]) {
        assert IsBlank(texts[i]);
      }
    }
  }

  /** `generate_embeddings_batch`: nothing for an empty list; otherwise one
      model call on the prepared texts. */
  function GenerateEmbeddingsBatch(e: Embedder, texts: seq<string>): (vs: seq<seq<real>>)
    ensures |texts| == 0 ==> vs == []
    ensures |texts| > 0 ==> vs == e.encodeBatch(PrepareBatch(texts))
  {
    if |texts| == 0 then [] else e.encodeBatch(PrepareBatch(texts))
  }
}

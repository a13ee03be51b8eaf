# Ray tracer and cube viewer: a Dafny model

This project models two small, sequential C programs and proves properties of them.

- **The ray tracer** (`ray_tracing/RayTrace.c`), in modules `Geometry` (`geometry.dfy`) and `RayTrace` (`raytrace.dfy`). It fills a height × width raster with the background colour. For every pixel it casts a primary ray from the camera and finds the nearest sphere it hits, if any. It then shades that point with the Phong model: the ambient term first, then each light whose shadow ray hits nothing. The shaded colour is clamped to [0, 1] and written to the pixel. At the end the raster is packed row by row into an RGB byte buffer.
- **The cube viewer** (`Transformations/cube.c`), in module `Cube` (`cube.dfy`). It builds identity, translation, scale and orthographic 4×4 matrices in column-major order. It also runs a keyboard state machine over its globals: the operation mode, the projection mode, and the translation, rotation-angle and scale-factor arrays.

Both programs update state in place, so the model is imperative. The rasters are `array2<Color>`. The byte buffer and the cube's arrays are `array`s. The cube's globals are the fields of a class `Cube.Viewer`. Each method is proved against a specification function: `SceneHit`, `Lighting`, `Traced`, `PixelAfter`, `Pack` and `Render` for the ray tracer, and `KeyEffect` and the matrix functions for the cube. Lemmas then state what the source promises about those functions.

C `float` is modelled as `real`. `sqrt` and `pow` come from `<math.h>` (RayTrace.c:7). `normalize` and the vector helpers come from `Geometry.h` (RayTrace.c:13), which is not part of this model. The vector helpers are written out as `Geometry.Vector3` operations. `sqrt`, `pow` and `normalize` are not modelled: they are the fields of a `Geometry.MathLib` value passed to every operation. Results that hold for any such functions need no assumption about them. Lemmas that need the square root to be exact, or `pow` to be non-negative, say so in a `requires`.

`shade` adds the ambient term onto the colour it is handed (RayTrace.c:174-176), and `rayTrace` zeroes that colour first (RayTrace.c:235-237). So `RayTrace.Shade` takes the incoming colour as a parameter, and `RayTrace.RayTrace` passes `Black`.

## Model

| member | source | states |
|---|---|---|
| RayTrace.InitImageWithBackground | ray_tracing/RayTrace.c:18-31 | every cell (i, j) of the raster equals the background colour afterwards |
| RayTrace.ClampChannel | ray_tracing/RayTrace.c:35-39 | fminf(fmaxf(x, m), M) lies in [m, M] when m <= M, is x itself when x is already in range, is m below the range and M above it, and is M when M < m |
| RayTrace.Clamp | ray_tracing/RayTrace.c:35-39 | the channel-by-channel clamp leaves every channel in [m, M] when m <= M and leaves an in-range colour unchanged |
| RayTrace.ClampIdempotent | ray_tracing/RayTrace.c:35-39 | clamping twice gives the same colour as clamping once, for any bounds and any colour |
| RayTrace.InsideSphereMisses | ray_tracing/RayTrace.c:55-62 | with an exact sqrt, a ray starting strictly inside a sphere reports no hit, although its far root is positive: only the near root is tried |
| RayTrace.HitPointOnSphere | ray_tracing/RayTrace.c:55-62 | with an exact sqrt and a unit direction, origin + t·direction lies on the sphere |
| RayTrace.SurfaceShadowRay | ray_tracing/RayTrace.c:55-62 | with an exact sqrt, a ray from a point on the sphere misses that sphere when it points outward and hits it at t = 0 when it points inward |
| RayTrace.OutsideForwardRayHits | ray_tracing/RayTrace.c:55-62 | with an exact sqrt, a ray starting outside a sphere, pointing towards its centre (u·d < 0), with a non-negative discriminant, is reported as a hit at its near root, which is > 0 |
| RayTrace.NearRootIsClosest | ray_tracing/RayTrace.c:46-62 | with an exact sqrt and a unit direction, the reported distance t is the closest intersection: every t' that puts origin + t'·direction on the sphere has t <= t' |
| RayTrace.AxisHit | ray_tracing/RayTrace.c:55-62 | a unit sphere centred at (0,0,-z), z > 1, is hit at distance z - 1 by the ray from the origin along -z |
| RayTrace.Closest | ray_tracing/RayTrace.c:88-100 | the running minimum, when there is one, indexes a sphere of the list |
| RayTrace.ClosestIsNearest | ray_tracing/RayTrace.c:88-102 | the scan finds nothing exactly when no sphere passes hitSphere; otherwise it finds a sphere with the minimal t among the hit spheres, strictly nearer than every hit sphere before it (first wins ties), together with its hitSphere distance |
| RayTrace.NearestIsUnique | ray_tracing/RayTrace.c:88-100 | at most one index satisfies the nearest-with-first-on-ties condition |
| RayTrace.NearerSphereWins | ray_tracing/RayTrace.c:88-100 | spheres A at (0,0,-5) and B at (0,0,-3) of radius 1, seen from the origin along -z: A is hit at 4, B at 2, and the scan over [A, B] reports B at 2 |
| RayTrace.SceneHit | ray_tracing/RayTrace.c:102-116 | the specification of hitScene: no hit when the scan finds none, otherwise position o + t·d, normal (position - centre)/radius and the colours of the sphere the scan finds |
| RayTrace.HitScene | ray_tracing/RayTrace.c:76-117 | the loop over hit_idx, t_min and hit_sph returns no hit when the scan finds none, otherwise the hit record of the sphere the scan finds |
| RayTrace.SceneHitIsNearest | ray_tracing/RayTrace.c:102-116 | when some sphere is hit, the record is that of the nearest sphere k (first on ties): position o + t·d, normal (position - centre)/radius, and k's diffuse and specular colours |
| RayTrace.Shadowed | ray_tracing/RayTrace.c:183-189 | the shadow test: hitScene reports a hit for the ray from the hit point toward the normalised light direction |
| RayTrace.ShadowedIffSphereHit | ray_tracing/RayTrace.c:183-189 | the shadow test holds exactly when some sphere of the scene passes hitSphere for the ray toward the light |
| RayTrace.Contribution | ray_tracing/RayTrace.c:183-212 | what one light adds: black when the shadow ray hits, otherwise the diffuse term plus the specular term |
| RayTrace.Shade | ray_tracing/RayTrace.c:155-214 | the colour afterwards is the colour before, plus hit_color ⊙ ambient, plus the sum over the lights, in order, of each light's contribution |
| RayTrace.AddLight | ray_tracing/RayTrace.c:183-212 | one pass of the light loop adds that light's contribution: nothing when the shadow ray toward it hits a sphere, otherwise its diffuse and specular terms |
| RayTrace.AddPhong | ray_tracing/RayTrace.c:192-211 | adds hit_color ⊙ light_color ⊙ max(n·l, 0), then hit_spec ⊙ light_color ⊙ pow(max(v·r, 0), 100), with r the normalised mirror of l about n |
| RayTrace.LightTermsAt | ray_tracing/RayTrace.c:181-213 | the contribution list has one entry per light, and entry i is the contribution of light i |
| RayTrace.LightTermsSplit | ray_tracing/RayTrace.c:181-213 | the contributions of a concatenation of light lists are the concatenated contributions |
| RayTrace.SumSplit | ray_tracing/RayTrace.c:181-213 | the accumulated sum of a concatenated list is the sum of the two sums |
| RayTrace.LightingSplit | ray_tracing/RayTrace.c:181-213 | the lighting from lights a + b is the lighting from a plus the lighting from b |
| RayTrace.ShadowedLightAddsNothing | ray_tracing/RayTrace.c:189-212 | appending a light whose shadow ray hits a sphere leaves the lighting unchanged |
| RayTrace.AllShadowedIsBlack | ray_tracing/RayTrace.c:181-213 | when every light is shadowed the lights add black |
| RayTrace.FullShadowGivesAmbient | ray_tracing/RayTrace.c:174-213 | a point that sees no light is shaded with the ambient term only |
| RayTrace.ContributionNonNegative | ray_tracing/RayTrace.c:189-212 | with non-negative colours and a pow that is non-negative on non-negative bases, one light never darkens a channel |
| RayTrace.LightingNonNegative | ray_tracing/RayTrace.c:181-213 | under the same assumptions the sum of all lights is non-negative in every channel |
| RayTrace.Traced | ray_tracing/RayTrace.c:217-243 | the specification of rayTrace: no colour on a miss, the shading of the nearest hit on a hit |
| RayTrace.RayTrace | ray_tracing/RayTrace.c:217-243 | on a miss no colour is produced; on a hit the colour is the shading of the nearest hit point started from black |
| RayTrace.PrimaryDirection | ray_tracing/RayTrace.c:276-287 | the normalised direction from the camera to the point (scale·j - scale·w/2, scale·i - scale·h/2, 0) of the screen plane |
| RayTrace.PrimaryDirectionAtCentre | ray_tracing/RayTrace.c:276-287 | the middle pixel (2i = h, 2j = w) lies at the origin of the screen plane, so its primary ray is the normalised vector from the camera to that origin |
| RayTrace.TraceRow | ray_tracing/RayTrace.c:273-296 | after one row of the pixel loop each pixel of that row is overwritten with the clamped shading when its primary ray hits and keeps its value when it misses; all other rows are unchanged |
| RayTrace.TracePixels | ray_tracing/RayTrace.c:272-297 | after the pixel loop every pixel is its clamped shading on a hit and its previous value on a miss |
| RayTrace.ChannelByte | ray_tracing/RayTrace.c:131-133 | for a channel x in [0, 1] the byte (unsigned char)(x·255) is floor(255·x) |
| RayTrace.ChannelByteSamples | ray_tracing/RayTrace.c:131-133 | the channels 0, 0.5 and 1 become the bytes 0, 127 and 255 |
| RayTrace.PackRow | ray_tracing/RayTrace.c:130-143 | a row of w pixels packs into 3w bytes |
| RayTrace.PackRowAt | ray_tracing/RayTrace.c:130-143 | byte 3j + k of a packed row is channel k (R, G, B) of pixel j |
| RayTrace.Pack | ray_tracing/RayTrace.c:129-144 | a raster of h rows of w pixels packs into 3·w·h bytes |
| RayTrace.PackStep | ray_tracing/RayTrace.c:129-144 | packing one more row appends that row's bytes |
| RayTrace.PackAt | ray_tracing/RayTrace.c:129-144 | byte 3(i·w + j) + k of the packed raster is channel k of pixel (i, j) |
| RayTrace.PutPixel | ray_tracing/RayTrace.c:131-142 | the three stores write the R, G, B bytes of one pixel at count, count+1, count+2 and leave every other byte alone |
| RayTrace.SaveRow | ray_tracing/RayTrace.c:130-143 | one row of saveRaw advances count by 3w, writes that row's packed bytes from the old count on and leaves the bytes before and after them alone |
| RayTrace.SaveRaw | ray_tracing/RayTrace.c:123-145 | the texture has exactly 3·w·h bytes and holds the row-major packing of the raster |
| RayTrace.RayTraceScene | ray_tracing/RayTrace.c:246-300 | the frame's texture has 3·w·h bytes and is the packing of the raster in which each pixel is its clamped shading on a hit and the background on a miss |
| RayTrace.MissKeepsBackground | ray_tracing/RayTrace.c:272-296 | a pixel whose primary ray hits no sphere keeps the background colour |
| RayTrace.HitPixelIsShaded | ray_tracing/RayTrace.c:272-296 | a pixel whose primary ray hits gets the clamped shading of the nearest hit, lies in [0, 1], and its bytes are floor(255·channel) |
| RayTrace.FrameByteAt | ray_tracing/RayTrace.c:246-300 | byte 3(i·w + j) + k of the frame exists and is channel k of the final colour of pixel (i, j) |
| Cube.IdentityIsDiagonal | Transformations/cube.c:35-47 | slots 0, 5, 10, 15 are exactly the diagonal entries (r, r) of the column-major 4×4 matrix |
| Cube.IdentityFixesPoints | Transformations/cube.c:35-47 | the identity leaves every homogeneous point unchanged |
| Cube.TranslationMovesPoints | Transformations/cube.c:52-62 | the translation matrix maps (x, y, z, 1) to (x+tx, y+ty, z+tz, 1) and leaves directions (w = 0) unchanged |
| Cube.ScaleStretchesPoints | Transformations/cube.c:70-80 | the scale matrix maps (x, y, z, w) to (sx·x, sy·y, sz·z, w) |
| Cube.OrthoMapsBoxToCube | Transformations/cube.c:117-130 | for right ≠ left, top ≠ bottom, near ≠ far, the orthographic matrix maps (left, bottom, -near) to (-1, -1, -1) and (right, top, -far) to (1, 1, 1) |
| Cube.KeyEffect | Transformations/cube.c:258-321 | the specification of keyboard: p flips the projection mode, t/r/s (either case) set the operation mode, an axis key nudges the selected array, any other key changes nothing |
| Cube.Nudge | Transformations/cube.c:283-317 | an axis key keeps the state valid and leaves both modes unchanged |
| Cube.KeyEffectKeepsValid | Transformations/cube.c:258-321 | every key keeps the operation mode in {TRANS, ROT, SCALE}, the projection mode in {PERSP, ORTHO} and the three arrays of length 3 |
| Cube.ProjectionKeyFlips | Transformations/cube.c:264-266 | 'p' switches PERSP to ORTHO and ORTHO to PERSP and changes nothing else |
| Cube.ProjectionKeyTwiceRestores | Transformations/cube.c:264-266 | pressing 'p' twice restores the whole state |
| Cube.ModeKeySetsMode | Transformations/cube.c:268-281 | t/T, r/R, s/S set the operation mode to TRANS, ROT, SCALE and change no other state |
| Cube.AxisKeyChangesOneEntry | Transformations/cube.c:283-317 | an axis key changes only the entry at its axis of the array its mode selects: translation by ∓0.5, angle by ∓5, scale factor times 0.9 or 1.1; every other entry and both modes are unchanged |
| Cube.AxisKeyPair | Transformations/cube.c:283-317 | a lower-case axis key followed by its upper-case partner restores the state in TRANS and ROT mode, and multiplies the scale factor by 0.99 in SCALE mode |
| Cube.OtherKeysChangeNothing | Transformations/cube.c:319-320 | any other key, escape included, leaves the modes and transforms unchanged |
| Cube.Initial | Transformations/cube.c:14-31 | the initial state (TRANS, PERSP, no translation, no rotation, unit scale) is a valid state |
| Cube.Viewer.constructor | Transformations/cube.c:14-33 | the globals start as TRANS, PERSP, zero translation and angles, unit scale, and a zeroed seiki |
| Cube.Viewer.SeikiSyokika | Transformations/cube.c:35-47 | afterwards seiki[i] is 1 for i in {0, 5, 10, 15} and 0 otherwise, and the mode and transform state is unchanged |
| Cube.Viewer.CopySeiki | Transformations/cube.c:56-58 | the copy loop produces a fresh 16-entry array equal to seiki |
| Cube.Viewer.MyTranslatef | Transformations/cube.c:52-62 | the matrix built is seiki with slots 12, 13, 14 set to tx, ty, tz and every other slot copied; from an identity seiki it is the translation matrix |
| Cube.Viewer.MyScalef | Transformations/cube.c:70-80 | the matrix built is seiki with slots 0, 5, 10 set to sx, sy, sz and every other slot copied; from an identity seiki it is the scale matrix |
| Cube.Viewer.MyOrtho | Transformations/cube.c:117-130 | for right ≠ left, top ≠ bottom, near ≠ far the matrix built is seiki with slots 0, 5, 10 set to 2/(right-left), 2/(top-bottom), 2/(near-far), slots 12, 13, 14 set to the offsets, and every other slot (15 included) copied; from an identity seiki it is the orthographic matrix |
| Cube.Viewer.Rotate | Transformations/cube.c:245-247 | g_angle[ax] grows by amt and nothing else changes |
| Cube.Viewer.Translate | Transformations/cube.c:250-252 | g_trans[ax] grows by amt and nothing else changes |
| Cube.Viewer.Scale | Transformations/cube.c:254-256 | g_scale[ax] is multiplied by amt and nothing else changes |
| Cube.Viewer.AxisKey | Transformations/cube.c:283-317 | the three independent mode tests of an axis key change the state as the axis-key rule says |
| Cube.Viewer.Keyboard | Transformations/cube.c:258-321 | one key press changes the globals exactly as the key rule says, keeps them valid, and asks to quit exactly on escape |

## Left out

- GL and GLUT calls are not modelled: `glMultMatrixf`, drawing, `display`, `reshape`, `init`, `main`, `glutPostRedisplay` and the texture upload. The matrix builders return the 16 entries they would hand to `glMultMatrixf`.
- `Cube.Viewer.Keyboard`: the process exit on escape (cube.c:260-261) is a side effect outside the model. `Keyboard` returns a quit flag instead and leaves the state unchanged.
- The mouse coordinates passed to `keyboard` are unused by the code and are not parameters. `reshape`'s `g_width`/`g_height` are not modelled.
- `myRotatef`, `myPerspective` and the drawing code are not modelled. They depend on `cos`, `sin` and `tan`, which have no exact contract.
- IEEE floating point: rounding, NaN and infinities are not modelled. `float` is `real`, so the constants 0.9f and 1.1f are the exact decimals 0.9 and 1.1.
- `RayTrace.HitScene`: the initial `t_min = FLT_MAX` (RayTrace.c:84) is replaced by testing `hit_idx == -1` before comparing. This differs only for distances of `FLT_MAX` or more.
- `RayTrace.HitSphere`: C writes `*t = -ud - sqrt(discriminant)` even when it returns 0, with a NaN for a negative discriminant (RayTrace.c:59). The model returns no distance on a miss. Callers never read it then.
- sqrt, pow and normalize are abstract (`Geometry.MathLib`). `normalize` is a total but unspecified function. It is not given a non-zero precondition, so every result holds whatever it returns on the zero vector, which C leaves undefined.
- `RayTrace.Shade`, `RayTrace.AddPhong`: exact Phong numbers are not proved. The contracts state the structure: the ambient term first, the shadow gate per light, and additive accumulation in light order. C updates the channels in the order red, blue, green (RayTrace.c:196-198, 209-211). Each channel is independent, so the model adds whole colours.
- `RayTrace.ChannelByte`: the C cast to `unsigned char` is undefined when the truncated x·255 lies outside [0, 255]. The model truncates toward zero and wraps modulo 256. The pixel loop only ever packs clamped channels.
- `malloc`/`free` of the raster rows and the texture are not modelled (RayTrace.c:127, 254-257, 302-306). The raster is a fresh `array2` and the texture a fresh `array`.
- A zero sphere radius divides by zero in the normal (RayTrace.c:110), and a negative radius gives an inward normal. The ray-tracing operations require `Geometry.PositiveRadii`: every sphere of the scene has radius > 0.
